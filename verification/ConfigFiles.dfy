/** The INI and the properties parser on whole files
    (src/runtime/docker/configuration/line.rs).

    A replacement is written as it is.  If there is more than whitespace behind
    its first line break, the rest of it is read as lines of the file. */
module ConfigFiles {
  import opened Sequences
  import opened Text
  import opened Json
  import opened ConfigLines
  import opened ConfigText
  import opened IniConfig
  import P = PropertiesConfig

  // ---- what both have in common ------------------------------------------------------------

  /** What a replacement can write stays in its line. */
  ghost predicate CleanWanted(library: Library, wanted: Wanted) {
    && Clean(wanted.section) && Clean(wanted.key)
    && forall value :: Writes(wanted, value) ==> OneLine(ScalarText(library, value))
  }

  /** ... so that its lines can be read again. */
  ghost predicate WholeWanted(format: Format, library: Library, wanted: Wanted) {
    forall value :: Writes(wanted, value) ==> Whole(format, NewLine(library, wanted, value))
  }

  /** How a format reads a written line, and that it does not mind whitespace behind it. */
  ghost predicate ReadsAs(format: Format, key: string, stored: string -> string) {
    && (forall text :: format(key + ['='] + text) == Entry(key, stored(text)))
    && (forall text, tail :: Blank(tail) ==> stored(text + tail) == stored(text))
  }

  lemma OneLineIsWhole(format: Format, key: string, text: string, stored: string -> string)
    requires EndBlind(format) && ReadsAs(format, key, stored) && Clean(key) && OneLine(text)
    ensures Whole(format, key + ['='] + text)
  {
    hide EndBlind, Split, Visible, FirstLine, AfterFirstLine, Blank;
    var first, rest := FirstLine(text), AfterFirstLine(text);
    BrokenLine(key, text);
    OneVisible(format, key + ['='] + first);
    OneVisible(format, key + ['='] + text);
    assert stored(first + rest) == stored(first);
    if rest != "" {
      TailIsBlank(rest);
      BlankSplits(format, rest[1..]);
      VisibleAppend(format, [key + ['='] + first], Split(rest[1..], '\n'));
      AppendNothing(VisibleItem(format, key + ['='] + first));
    }
  }

  lemma TailIsBlank(rest: string)
    requires Blank(rest) && rest != ""
    ensures Blank(rest[1..])
  {
    hide Whitespace;
  }

  lemma CleanWantedIsWhole(format: Format, library: Library, wanted: Wanted, stored: string -> string)
    requires EndBlind(format) && ReadsAs(format, wanted.key, stored) && CleanWanted(library, wanted)
    ensures WholeWanted(format, library, wanted)
  {
    hide EndBlind, ReadsAs, Whole, OneLine;
    forall value | Writes(wanted, value) ensures Whole(format, NewLine(library, wanted, value)) {
      OneLineIsWhole(format, wanted.key, ScalarText(library, value), stored);
    }
  }

  lemma {:induction false} RewrittenIsWhole(format: Format, library: Library, section: string, lines: Lines, wanted: Wanted)
    requires WholeWanted(format, library, wanted) && AllWhole(format, lines)
    ensures AllWhole(format, Rewritten(format, library, section, lines, wanted))
    decreases |lines|
  {
    if lines != [] {
      hide WholeWanted, Whole, NewLine;
      assert forall i :: 0 <= i < |lines[1..]| ==> lines[1..][i] == lines[i + 1];
      RewrittenIsWhole(format, library, NextSection(format, section, lines[0]), lines[1..], wanted);
      RewrittenLineIsWhole(format, library, section, lines[0], wanted);
    }
  }

  lemma RewrittenLineIsWhole(format: Format, library: Library, section: string, line: string, wanted: Wanted)
    requires WholeWanted(format, library, wanted) && Whole(format, line)
    ensures Whole(format, RewrittenLine(format, library, section, line, wanted))
  {
    hide Whole, NewLine;
    var after := RewrittenLine(format, library, section, line, wanted);
    if after != line {
      var value := ReplacementForCurrent(wanted.replacement, format(line).value).value;
      assert Writes(wanted, value);
    }
  }

  lemma SameVisibleReplaces(format: Format, library: Library, find: seq<Wanted>, stored: string -> string,
                            before: Lines, lines: Lines, after: Lines)
    requires ReplacesAll(format, library, find, stored, before, lines) && Visible(format, after) == Visible(format, lines)
    ensures ReplacesAll(format, library, find, stored, before, after)
  {
    hide Reads, Headers, Settled, Visible;
    SameVisibleReads(format, after, lines);
  }

  /** What is read of a key whose line was written to a file that says nothing of it. */
  lemma FirstReading(format: Format, section: string, key: string, text: string, stored: string -> string, lines: Lines)
    requires ReadsAs(format, key, stored) && Clean(key)
    requires lines == Split(key + ['='] + text, '\n')
    ensures Visible(format, lines) == [Entry(key, stored(FirstLine(text)))] + Visible(format, lines[1..])
    ensures AfterFirstLine(text) != "" ==> lines[1..] == Split(AfterFirstLine(text)[1..], '\n')
    ensures AfterFirstLine(text) == "" ==> lines[1..] == []
  {
    hide Split, Visible, FirstLine, AfterFirstLine, Blank;
    BrokenLine(key, text);
    var first := key + ['='] + FirstLine(text);
    assert lines == [first] + lines[1..];
    OneVisible(format, first);
    VisibleAppend(format, [first], lines[1..]);
  }

  /** If the first line of a text trims like the whole, there is only whitespace behind it. */
  lemma SameTrimIsOneLine(text: string)
    requires Trim(FirstLine(text)) == Trim(text)
    ensures OneLine(text)
  {
    hide Whitespace, TrimStart, TrimEnd, Trim, FirstLine, AfterFirstLine;
    var first, rest := FirstLine(text), AfterFirstLine(text);
    BrokenLine("", text);
    PrefixTrim(first, rest);
  }

  predicate Ink(c: char) {
    !Whitespace(c)
  }

  lemma {:induction false} InkAt(left: string, rest: string)
    requires Blank(left) && rest != "" && Ink(rest[0])
    ensures Position(left + rest, Ink) == |left|
    decreases |left|
  {
    hide Whitespace;
    if left == "" {
      assert left + rest == rest;
    } else {
      assert Whitespace(left[0]);
      assert (left + rest)[1..] == left[1..] + rest && (left + rest)[0] == left[0];
      InkAt(left[1..], rest);
    }
  }

  lemma PrefixTrim(first: string, rest: string)
    requires Trim(first) == Trim(first + rest)
    ensures Blank(rest)
  {
    hide Whitespace, TrimStart, TrimEnd, Trim, Position;
    var text := first + rest;
    var l, r := TrimParts(text);
    var l', r' := TrimParts(first);
    var t := Trim(text);
    if t == "" {
      assert text == l + r;
    } else {
      InkAt(l, t + r);
      InkAt(l', t + r' + rest);
      assert text == l + (t + r) && text == l' + (t + r' + rest);
      assert rest == text[|first|..] == r[|r'|..];
    }
  }

  // ---- INI files --------------------------------------------------------------------------------

  /** No two paths name the same key, and what is asked for fits into a line. */
  ghost predicate CleanPaths(library: Library, find: seq<Find>) {
    && (forall i, section, key :: 0 <= i < |find| && Names(find[i].path, section, key) ==>
         IniKey(key) && CleanWanted(library, Wanted(section, key, find[i].replacement)))
    && (forall i, j, section, key :: 0 <= i < j < |find| && Names(find[i].path, section, key) ==>
         !Names(find[j].path, section, key))
  }

  /** Each key that a path names is replaced in its section, or added there;
      all other keys keep their values, and the headers stay in order. */
  ghost predicate UpdatesPaths(library: Library, find: seq<Find>, before: Lines, after: Lines) {
    && Headers(IniItem, before) <= Headers(IniItem, after)
    && (forall i, section, key :: 0 <= i < |find| && Names(find[i].path, section, key) ==>
         Reads(IniItem, after, section, key)
           == Settled(library, Wanted(section, key, find[i].replacement), Trim, Reads(IniItem, before, section, key)))
    && (forall section, key :: (forall i :: 0 <= i < |find| ==> !Names(find[i].path, section, key)) ==>
         Reads(IniItem, after, section, key) == Reads(IniItem, before, section, key))
  }

  /** `apply_ini_parser`, from text to text. */
  method ApplyIniParser(library: Library, text: string, find: seq<Find>) returns (output: string)
    ensures output == IniText(library, text, AllWanted(find))
    ensures CleanPaths(library, find) ==> UpdatesPaths(library, find, FileLines(text), FileLines(output))
    ensures EndsWithNewline(text) ==> EndsWithNewline(output)
  {
    hide CleanPaths, UpdatesPaths, FileLines, IniRun, AllWanted, Joined;
    var normalized := Normalized(text);
    var lines := ApplyIni(library, LinesOf(normalized), find);
    output := Finished(lines, EndsWithNewline(normalized));
    NormalizedEnd(text);
    SameLines(text);
    if CleanPaths(library, find) { PathsAreUpdated(library, text, find); }
  }

  lemma SameLines(text: string)
    ensures FileLines(text) == LinesOf(Normalized(text))
  {}

  function IniText(library: Library, text: string, find: seq<Wanted>): string {
    Finished(IniRun(library, FileLines(text), find), EndsWithNewline(Normalized(text)))
  }

  ghost predicate IniFind(library: Library, find: seq<Wanted>) {
    && Distinct(find)
    && forall k :: 0 <= k < |find| ==> IniKey(find[k].key) && CleanWanted(library, find[k])
  }

  lemma IniEndBlind()
    ensures EndBlind(IniItem)
  {
    hide Whitespace, Trim;
    forall line | Blank(line) ensures IniItem(line) == Other {
      TrimIsTrimmed("");
      TrimOfPadded(line, "", "");
      assert line + "" + "" == line;
    }
    forall line ensures IniItem(line + ['\r']) == IniItem(line) {
      ReturnIsBlank();
      TrimIgnoresPadding("", line, "\r");
      assert "" + line + "\r" == line + ['\r'];
    }
  }

  lemma ReturnIsBlank()
    ensures Whitespace('\r') && Blank("\r") && Blank("") && P.Separator('\r')
  {}

  lemma IniReadsAs(key: string)
    requires IniKey(key)
    ensures ReadsAs(IniItem, key, Trim)
  {
    hide IniItem, Blank, Trim;
    forall text ensures IniItem(key + ['='] + text) == Entry(key, Trim(text)) { IniLineReads(key, text); }
    forall text, tail | Blank(tail) ensures Trim(text + tail) == Trim(text) {
      assert Blank("") by { ReturnIsBlank(); }
      TrimIgnoresPadding("", text, tail);
      assert "" + text + tail == text + tail;
    }
  }

  lemma IniInsertedIsWhole(library: Library, lines: Lines, wanted: Wanted)
    requires WholeWanted(IniItem, library, wanted) && AllWhole(IniItem, lines) && !wanted.replacement.Object?
    requires Clean(wanted.section)
    ensures AllWhole(IniItem, IniInserted(library, lines, wanted))
  {
    hide NewLine, FirstHeader, FindHeader, Whole;
    assert Writes(wanted, wanted.replacement) && Whole(IniItem, NewLine(library, wanted, wanted.replacement));
    CleanIsWhole(IniItem, [['['] + wanted.section + [']'], ""]);
    assert Whole(IniItem, [['['] + wanted.section + [']'], ""][0]) && Whole(IniItem, [['['] + wanted.section + [']'], ""][1]);
  }

  lemma {:induction false} IniRunIsWhole(library: Library, lines: Lines, find: seq<Wanted>)
    requires AllWhole(IniItem, lines)
    requires forall k :: 0 <= k < |find| ==> WholeWanted(IniItem, library, find[k]) && Clean(find[k].section)
    ensures AllWhole(IniItem, IniRun(library, lines, find))
    decreases |find|
  {
    hide WholeWanted, AllWhole, Rewritten, IniInserted;
    if find != [] {
      var last := |find| - 1;
      var before := IniRun(library, lines, find[..last]);
      IniRunIsWhole(library, lines, find[..last]);
      RewrittenIsWhole(IniItem, library, "", before, find[last]);
      if !find[last].replacement.Object? {
        IniInsertedIsWhole(library, Rewritten(IniItem, library, "", before, find[last]), find[last]);
      }
    }
  }

  /** Rewriting an INI file is a functional update of what can be read from it. */
  lemma IniFileIsUpdated(library: Library, text: string, find: seq<Wanted>)
    requires IniFind(library, find)
    ensures ReplacesAll(IniItem, library, find, Trim, FileLines(text), FileLines(IniText(library, text, find)))
  {
    hide ReplacesAll, Visible, IniRun, EndBlind, IniItem, Finished, AllWhole, AllClean, WholeWanted, ReadsAs;
    var lines := IniRun(library, FileLines(text), find);
    IniIsFunctionalUpdate(library, FileLines(text), find);
    FileLinesAreClean(text);
    CleanIsWhole(IniItem, FileLines(text));
    IniEndBlind();
    forall k | 0 <= k < |find| ensures WholeWanted(IniItem, library, find[k]) {
      IniReadsAs(find[k].key);
      CleanWantedIsWhole(IniItem, library, find[k], Trim);
    }
    IniRunIsWhole(library, FileLines(text), find);
    WrittenFileReads(IniItem, lines, EndsWithNewline(Normalized(text)));
    SameVisibleReplaces(IniItem, library, find, Trim, FileLines(text), lines, FileLines(IniText(library, text, find)));
  }

  /** The same update, said of the paths. */
  lemma {:induction false} PathsAreUpdated(library: Library, text: string, find: seq<Find>)
    requires CleanPaths(library, find)
    ensures UpdatesPaths(library, find, FileLines(text), FileLines(IniText(library, text, AllWanted(find))))
  {
    hide Reads, Headers, FileLines, IniText, CleanWanted, IniKey, Settled, Names, WantedOf;
    var wanted := AllWanted(find);
    PathsAreWanted(library, find);
    IniFileIsUpdated(library, text, wanted);
    var before, after := FileLines(text), FileLines(IniText(library, text, wanted));
    forall i, section, key | 0 <= i < |find| && Names(find[i].path, section, key)
      ensures Reads(IniItem, after, section, key)
        == Settled(library, Wanted(section, key, find[i].replacement), Trim, Reads(IniItem, before, section, key))
    {
      PathNames(find[i].path, find[i].replacement, section, key);
      assert wanted[i] == Wanted(section, key, find[i].replacement);
    }
    forall section, key | forall i :: 0 <= i < |find| ==> !Names(find[i].path, section, key)
      ensures Reads(IniItem, after, section, key) == Reads(IniItem, before, section, key)
    {
      forall i | 0 <= i < |wanted| ensures wanted[i].section != section || wanted[i].key != key {
        PathNames(find[i].path, find[i].replacement, section, key);
      }
    }
  }

  lemma {:induction false} PathsAreWanted(library: Library, find: seq<Find>)
    requires CleanPaths(library, find)
    ensures IniFind(library, AllWanted(find))
  {
    hide CleanWanted, IniKey, Names, WantedOf;
    var wanted := AllWanted(find);
    forall k | 0 <= k < |find| ensures IniKey(wanted[k].key) && CleanWanted(library, wanted[k]) {
      PathNames(find[k].path, find[k].replacement, wanted[k].section, wanted[k].key);
    }
    forall i, j | 0 <= i < j < |find| ensures wanted[i].section != wanted[j].section || wanted[i].key != wanted[j].key {
      PathNames(find[i].path, find[i].replacement, wanted[i].section, wanted[i].key);
      PathNames(find[j].path, find[j].replacement, wanted[i].section, wanted[i].key);
    }
  }

  /** A second run changes nothing that can be read. */
  lemma IniFileSettles(library: Library, text: string, find: seq<Wanted>)
    requires IniFind(library, find) && forall k :: 0 <= k < |find| ==> !find[k].replacement.Object?
    ensures var once := IniText(library, text, find);
      forall name, key ::
        Reads(IniItem, FileLines(IniText(library, once, find)), name, key) == Reads(IniItem, FileLines(once), name, key)
  {
    hide ReplacesAll, IniText, Reads;
    var once := IniText(library, text, find);
    IniFileIsUpdated(library, text, find);
    IniFileIsUpdated(library, once, find);
    SecondRunChangesNoReading(IniItem, library, find, Trim, FileLines(text), FileLines(once), FileLines(IniText(library, once, find)));
  }

  /** In every file a plain replacement is a functional update, exactly if there
      is only whitespace behind its first line break. */
  ghost predicate AlwaysUpdatesIni(library: Library, wanted: Wanted) {
    forall text :: ReplacesAll(IniItem, library, [wanted], Trim, FileLines(text), FileLines(IniText(library, text, [wanted])))
  }

  lemma IniTextIsExact(library: Library, wanted: Wanted)
    requires IniKey(wanted.key) && Clean(wanted.section) && Clean(wanted.key) && !wanted.replacement.Object?
    ensures AlwaysUpdatesIni(library, wanted) <==> OneLine(ScalarText(library, wanted.replacement))
  {
    hide ReplacesAll, IniText, OneLine, IniKey, Clean;
    if OneLine(ScalarText(library, wanted.replacement)) {
      forall text
        ensures ReplacesAll(IniItem, library, [wanted], Trim, FileLines(text), FileLines(IniText(library, text, [wanted])))
      {
        IniFileIsUpdated(library, text, [wanted]);
      }
    }
    if AlwaysUpdatesIni(library, wanted) {
      assert ReplacesAll(IniItem, library, [wanted], Trim, FileLines(""), FileLines(IniText(library, "", [wanted])));
      BrokenIniText(library, wanted);
    }
  }

  /** The file that fails otherwise is the empty one: its only value for the key is cut. */
  lemma BrokenIniText(library: Library, wanted: Wanted)
    requires IniKey(wanted.key) && Clean(wanted.section) && Clean(wanted.key) && !wanted.replacement.Object?
    requires ReplacesAll(IniItem, library, [wanted], Trim, FileLines(""), FileLines(IniText(library, "", [wanted])))
    ensures OneLine(ScalarText(library, wanted.replacement))
  {
    var text := ScalarText(library, wanted.replacement);
    var after := FileLines(IniText(library, "", [wanted]));
    IniFirstReading(library, wanted);
    EmptyFile(IniItem, wanted.section, wanted.key);
    assert [wanted][0] == wanted;
    assert Reads(IniItem, after, wanted.section, wanted.key) == [Trim(text)];
    SameTrimIsOneLine(text);
  }

  lemma EmptyFile(format: Format, name: string, key: string)
    ensures FileLines("") == [] && Reads(format, FileLines(""), name, key) == []
  {
    SplitClean("");
  }

  lemma IniFirstReading(library: Library, wanted: Wanted)
    requires IniKey(wanted.key) && Clean(wanted.section) && Clean(wanted.key) && !wanted.replacement.Object?
    ensures var values := Reads(IniItem, FileLines(IniText(library, "", [wanted])), wanted.section, wanted.key);
      values != [] && values[0] == Trim(FirstLine(ScalarText(library, wanted.replacement)))
  {
    hide IniItem, Split, Visible, FileLines, EndBlind, ReadsAs, FirstLine, Trim, Values;
    var text, line := ScalarText(library, wanted.replacement), NewLine(library, wanted, wanted.replacement);
    var header := ['['] + wanted.section + [']'];
    var output := if wanted.section == "" then line else header + ['\n'] + line;
    assert IniText(library, "", [wanted]) == output by { EmptyIniRun(library, wanted); }
    IniEndBlind();
    FileIsSplit(IniItem, output);
    IniReadsAs(wanted.key);
    var lines := Split(line, '\n');
    FirstReading(IniItem, wanted.section, wanted.key, text, Trim, lines);
    var value := Entry(wanted.key, Trim(FirstLine(text)));
    var items := [value] + Visible(IniItem, lines[1..]);
    assert items[0] == value;
    if wanted.section != "" {
      SplitAt(header, line);
      HeaderReads(wanted.section);
      OneVisible(IniItem, header);
      VisibleAppend(IniItem, [header], lines);
      assert ([Header(wanted.section)] + items)[1..] == items;
    }
    ReadingIsVisible(IniItem, "", FileLines(output), wanted.section, wanted.key);
  }

  lemma EmptyIniRun(library: Library, wanted: Wanted)
    requires !wanted.replacement.Object?
    ensures var line, header := NewLine(library, wanted, wanted.replacement), ['['] + wanted.section + [']'];
      IniText(library, "", [wanted]) == if wanted.section == "" then line else header + ['\n'] + line
  {
    hide NewLine, Split, FileLines, Rewritten, Reads, IniItem;
    var line, header := NewLine(library, wanted, wanted.replacement), ['['] + wanted.section + [']'];
    EmptyFile(IniItem, wanted.section, wanted.key);
    assert [wanted][..0] == [] && [wanted][0] == wanted;
    assert IniRun(library, [], [wanted]) == IniStep(library, [], wanted);
    assert Rewritten(IniItem, library, "", [], wanted) == [] by { NothingRewritten(library, wanted); }
    assert IniInserted(library, [], wanted) == if wanted.section == "" then [line] else [header, line];
    JoinedTwo(header, line);
  }

  lemma NothingRewritten(library: Library, wanted: Wanted)
    ensures Rewritten(IniItem, library, "", [], wanted) == []
  {}

  lemma JoinedTwo(a: string, b: string)
    ensures Joined([a, b]) == a + ['\n'] + b && Joined([b]) == b
  {
    assert [a, b][1..] == [b];
  }

  // ---- properties files ------------------------------------------------------------------------------

  /** The keys differ, and what is asked for fits into a line. */
  ghost predicate CleanKeys(library: Library, find: seq<P.Find>) {
    && (forall i, j :: 0 <= i < j < |find| ==> find[i].key != find[j].key)
    && (forall i :: 0 <= i < |find| ==>
         P.PropertiesKeyOk(find[i].key) && CleanWanted(library, Wanted("", find[i].key, find[i].replacement)))
  }

  /** Each key that is asked for is replaced or added, and all others keep their values. */
  ghost predicate UpdatesKeys(library: Library, find: seq<P.Find>, before: Lines, after: Lines) {
    && (forall i :: 0 <= i < |find| ==>
         Reads(P.PropertiesItem, after, "", find[i].key)
           == Settled(library, Wanted("", find[i].key, find[i].replacement), P.Stored, Reads(P.PropertiesItem, before, "", find[i].key)))
    && (forall key :: (forall i :: 0 <= i < |find| ==> find[i].key != key) ==>
         Reads(P.PropertiesItem, after, "", key) == Reads(P.PropertiesItem, before, "", key))
  }

  /** `apply_properties_parser`, from text to text. */
  method ApplyPropertiesParser(library: Library, text: string, find: seq<P.Find>) returns (output: string)
    ensures output == PropertiesText(library, text, P.AllWanted(find))
    ensures CleanKeys(library, find) ==> UpdatesKeys(library, find, FileLines(text), FileLines(output))
    ensures EndsWithNewline(text) ==> EndsWithNewline(output)
  {
    hide CleanKeys, UpdatesKeys, FileLines, P.PropertiesRun, P.AllWanted, Joined;
    var normalized := Normalized(text);
    var lines := P.ApplyProperties(library, LinesOf(normalized), find);
    output := Finished(lines, EndsWithNewline(normalized));
    NormalizedEnd(text);
    SameLines(text);
    if CleanKeys(library, find) { KeysAreUpdated(library, text, find); }
  }

  lemma {:induction false} KeysAreUpdated(library: Library, text: string, find: seq<P.Find>)
    requires CleanKeys(library, find)
    ensures UpdatesKeys(library, find, FileLines(text), FileLines(PropertiesText(library, text, P.AllWanted(find))))
  {
    hide Reads, Headers, FileLines, PropertiesText, CleanWanted, P.PropertiesKeyOk, Settled;
    var wanted := P.AllWanted(find);
    assert forall i :: 0 <= i < |find| ==> wanted[i] == Wanted("", find[i].key, find[i].replacement);
    PropertiesFileIsUpdated(library, text, wanted);
  }

  function PropertiesText(library: Library, text: string, find: seq<Wanted>): string {
    Finished(P.PropertiesRun(library, FileLines(text), find), EndsWithNewline(Normalized(text)))
  }

  ghost predicate PropertiesFind(library: Library, find: seq<Wanted>) {
    && Distinct(find)
    && forall k :: 0 <= k < |find| ==>
        find[k].section == "" && P.PropertiesKeyOk(find[k].key) && CleanWanted(library, find[k])
  }

  lemma {:induction false} SkipBeforeBlank(s: string, tail: string)
    requires Blank(tail)
    ensures Trim(P.SkipSeparators(s + tail)) == Trim(P.SkipSeparators(s))
    decreases |s|
  {
    hide Whitespace, Trim;
    ReturnIsBlank();
    if s == "" {
      P.SkipBlank(tail, "");
      AppendNothing(tail);
      assert s + tail == tail;
    } else if P.Separator(s[0]) {
      assert (s + tail)[1..] == s[1..] + tail;
      SkipBeforeBlank(s[1..], tail);
    } else {
      TrimIgnoresPadding("", s, tail);
      assert "" + s + tail == s + tail;
      assert (s + tail)[0] == s[0];
    }
  }

  lemma {:induction false} PositionBeforeReturn(s: string)
    ensures Position(s + ['\r'], P.Separator) == Position(s, P.Separator)
    decreases |s|
  {
    ReturnIsBlank();
    hide Whitespace;
    if s == "" {
      assert s + ['\r'] == ['\r'];
    } else {
      assert (s + ['\r'])[1..] == s[1..] + ['\r'];
      PositionBeforeReturn(s[1..]);
    }
  }

  lemma {:induction false} TrimStartBeforeReturn(s: string)
    ensures TrimStart(s + ['\r']) == if TrimStart(s) == "" then "" else TrimStart(s) + ['\r']
    decreases |s|
  {
    ReturnIsBlank();
    hide Whitespace;
    if s == "" {
      assert s + ['\r'] == ['\r'] && ['\r'][1..] == "";
      assert TrimStart(['\r'][1..]) == "";
    } else {
      assert (s + ['\r'])[1..] == s[1..] + ['\r'];
      if Whitespace(s[0]) { TrimStartBeforeReturn(s[1..]); }
    }
  }

  /** The value of a line that has a key, from the position where the key ends. */
  lemma {:induction false} PropertiesValue(line: string)
    requires TrimStart(line) != "" && TrimStart(line)[0] != '#' && TrimStart(line)[0] != '!'
    ensures var trimmed := TrimStart(line);
      var index := Position(trimmed, P.Separator);
      P.PropertiesItem(line) == Entry(trimmed[..index], Trim(P.SkipSeparators(trimmed[index..])))
  {
    hide Whitespace, Trim, TrimStart, P.Separator, Position, P.SkipSeparators, P.ValueStart;
    var trimmed := TrimStart(line);
    var left := TrimStartParts(line);
    var index := Position(trimmed, P.Separator);
    var key, behind := trimmed[..index], trimmed[index..];
    assert trimmed == key + behind;
    if behind == "" {
      P.NothingToSkip();
      assert line[|line|..] == "";
    } else {
      hide P.PropertiesKey;
      P.KeyOfTrimmed(line, key, behind);
      Regroup(left, key, behind);
      ValueAt(left + key, behind);
    }
  }

  lemma {:induction false} ValueAt(front: string, behind: string)
    ensures var line := front + behind; line[P.ValueStart(line, |front|)..] == P.SkipSeparators(behind)
  {
    hide P.SeparatorRun;
    Suffix(front, behind, 0);
    Suffix(front, behind, P.SeparatorRun(behind));
  }

  lemma Suffix(left: string, right: string, i: nat)
    requires i <= |right|
    ensures (left + right)[|left| + i..] == right[i..]
  {}

  lemma PropertiesBeforeReturn(line: string)
    ensures P.PropertiesItem(line + ['\r']) == P.PropertiesItem(line)
  {
    hide Whitespace, Trim, TrimStart, Position, P.SkipSeparators;
    TrimStartBeforeReturn(line);
    var trimmed := TrimStart(line);
    if trimmed != "" && trimmed[0] != '#' && trimmed[0] != '!' {
      hide P.PropertiesItem;
      PropertiesValue(line);
      PropertiesValue(line + ['\r']);
      PositionBeforeReturn(trimmed);
      var index := Position(trimmed, P.Separator);
      ReturnIsBlank();
      SkipBeforeBlank(trimmed[index..], "\r");
      assert (trimmed + ['\r'])[..index] == trimmed[..index];
      assert (trimmed + ['\r'])[index..] == trimmed[index..] + ['\r'];
    }
  }

  lemma PropertiesEndBlind()
    ensures EndBlind(P.PropertiesItem)
  {
    forall line | Blank(line) ensures P.PropertiesItem(line) == Other {
      TrimStartOfPadded(line, "");
      AppendNothing(line);
    }
    forall line ensures P.PropertiesItem(line + ['\r']) == P.PropertiesItem(line) {
      PropertiesBeforeReturn(line);
    }
  }

  lemma PropertiesReadsAs(key: string)
    requires P.PropertiesKeyOk(key)
    ensures ReadsAs(P.PropertiesItem, key, P.Stored)
  {
    hide P.PropertiesItem, P.SkipSeparators, Blank, Trim;
    forall text ensures P.PropertiesItem(key + ['='] + text) == Entry(key, P.Stored(text)) { P.PropertiesLineReads(key, text); }
    forall text, tail | Blank(tail) ensures P.Stored(text + tail) == P.Stored(text) { SkipBeforeBlank(text, tail); }
  }

  lemma {:induction false} PropertiesRunIsWhole(library: Library, lines: Lines, find: seq<Wanted>)
    requires AllWhole(P.PropertiesItem, lines)
    requires forall k :: 0 <= k < |find| ==> WholeWanted(P.PropertiesItem, library, find[k])
    ensures AllWhole(P.PropertiesItem, P.PropertiesRun(library, lines, find))
    decreases |find|
  {
    hide Whole, Rewritten, NewLine;
    if find != [] {
      var last := |find| - 1;
      var before := P.PropertiesRun(library, lines, find[..last]);
      PropertiesRunIsWhole(library, lines, find[..last]);
      RewrittenIsWhole(P.PropertiesItem, library, "", before, find[last]);
      if !find[last].replacement.Object? {
        assert Writes(find[last], find[last].replacement);
      }
    }
  }

  /** Rewriting a properties file is a functional update of what can be read from it. */
  lemma PropertiesFileIsUpdated(library: Library, text: string, find: seq<Wanted>)
    requires PropertiesFind(library, find)
    ensures ReplacesAll(P.PropertiesItem, library, find, P.Stored, FileLines(text), FileLines(PropertiesText(library, text, find)))
  {
    hide ReplacesAll, Visible, P.PropertiesRun, EndBlind, P.PropertiesItem, Finished, AllWhole, AllClean, WholeWanted, ReadsAs;
    var lines := P.PropertiesRun(library, FileLines(text), find);
    P.PropertiesIsFunctionalUpdate(library, FileLines(text), find);
    FileLinesAreClean(text);
    CleanIsWhole(P.PropertiesItem, FileLines(text));
    PropertiesEndBlind();
    forall k | 0 <= k < |find| ensures WholeWanted(P.PropertiesItem, library, find[k]) {
      PropertiesReadsAs(find[k].key);
      CleanWantedIsWhole(P.PropertiesItem, library, find[k], P.Stored);
    }
    PropertiesRunIsWhole(library, FileLines(text), find);
    WrittenFileReads(P.PropertiesItem, lines, EndsWithNewline(Normalized(text)));
    SameVisibleReplaces(P.PropertiesItem, library, find, P.Stored, FileLines(text), lines, FileLines(PropertiesText(library, text, find)));
  }

  /** A second run changes nothing that can be read. */
  lemma PropertiesFileSettles(library: Library, text: string, find: seq<Wanted>)
    requires PropertiesFind(library, find) && forall k :: 0 <= k < |find| ==> !find[k].replacement.Object?
    ensures var once := PropertiesText(library, text, find);
      forall name, key ::
        Reads(P.PropertiesItem, FileLines(PropertiesText(library, once, find)), name, key) == Reads(P.PropertiesItem, FileLines(once), name, key)
  {
    hide ReplacesAll, PropertiesText, Reads;
    var once := PropertiesText(library, text, find);
    PropertiesFileIsUpdated(library, text, find);
    PropertiesFileIsUpdated(library, once, find);
    SecondRunChangesNoReading(P.PropertiesItem, library, find, P.Stored, FileLines(text), FileLines(once), FileLines(PropertiesText(library, once, find)));
  }

  ghost predicate AlwaysUpdatesProperties(library: Library, wanted: Wanted) {
    forall text ::
      ReplacesAll(P.PropertiesItem, library, [wanted], P.Stored, FileLines(text), FileLines(PropertiesText(library, text, [wanted])))
  }

  /** The same condition decides for properties files. */
  lemma PropertiesTextIsExact(library: Library, wanted: Wanted)
    requires wanted.section == "" && P.PropertiesKeyOk(wanted.key) && Clean(wanted.key) && !wanted.replacement.Object?
    ensures AlwaysUpdatesProperties(library, wanted) <==> OneLine(ScalarText(library, wanted.replacement))
  {
    hide ReplacesAll, PropertiesText, OneLine, P.PropertiesKeyOk;
    if OneLine(ScalarText(library, wanted.replacement)) {
      forall text ensures ReplacesAll(P.PropertiesItem, library, [wanted], P.Stored, FileLines(text), FileLines(PropertiesText(library, text, [wanted]))) {
        PropertiesFileIsUpdated(library, text, [wanted]);
      }
    }
    if AlwaysUpdatesProperties(library, wanted) {
      assert ReplacesAll(P.PropertiesItem, library, [wanted], P.Stored, FileLines(""), FileLines(PropertiesText(library, "", [wanted])));
      BrokenPropertiesText(library, wanted);
    }
  }

  /** The file that fails otherwise is the empty one: the value is cut, or what is behind it is read as entries. */
  lemma BrokenPropertiesText(library: Library, wanted: Wanted)
    requires wanted.section == "" && P.PropertiesKeyOk(wanted.key) && Clean(wanted.key) && !wanted.replacement.Object?
    requires ReplacesAll(P.PropertiesItem, library, [wanted], P.Stored, FileLines(""), FileLines(PropertiesText(library, "", [wanted])))
    ensures OneLine(ScalarText(library, wanted.replacement))
  {
    hide P.PropertiesItem, FirstLine, AfterFirstLine, P.Stored, OneLine, FileLines;
    var text, output := ScalarText(library, wanted.replacement), PropertiesText(library, "", [wanted]);
    var more := PropertiesReadings(library, wanted);
    forall key ensures ItemValues("", more, "", key) == [] && (key == wanted.key ==> P.Stored(FirstLine(text)) == P.Stored(text)) {
      var values := Reads(P.PropertiesItem, FileLines(output), "", key);
      EmptyFile(P.PropertiesItem, "", key);
      assert [wanted][0] == wanted;
      if key == wanted.key {
        assert values == [P.Stored(text)];
        assert values[0] == P.Stored(FirstLine(text)) && values[1..] == ItemValues("", more, "", key);
      }
    }
    NoEntries(more);
    if AfterFirstLine(text) != "" { VisibleEntries(Split(AfterFirstLine(text)[1..], '\n')); }
    SameStoredIsOneLine(text);
  }

  /** Everything that is read of the empty file after one replacement. */
  lemma PropertiesReadings(library: Library, wanted: Wanted) returns (more: seq<Item>)
    requires wanted.section == "" && P.PropertiesKeyOk(wanted.key) && Clean(wanted.key) && !wanted.replacement.Object?
    ensures var text := ScalarText(library, wanted.replacement);
      var rest := AfterFirstLine(text);
      && more == (if rest == "" then [] else Visible(P.PropertiesItem, Split(rest[1..], '\n')))
      && forall key :: Reads(P.PropertiesItem, FileLines(PropertiesText(library, "", [wanted])), "", key)
           == (if key == wanted.key then [P.Stored(FirstLine(text))] else []) + ItemValues("", more, "", key)
  {
    hide P.PropertiesItem, Split, FileLines, EndBlind, ReadsAs, FirstLine, AfterFirstLine, P.Stored, Values, Blank;
    var text, line := ScalarText(library, wanted.replacement), NewLine(library, wanted, wanted.replacement);
    assert PropertiesText(library, "", [wanted]) == line by { EmptyPropertiesRun(library, wanted); }
    PropertiesEndBlind();
    FileIsSplit(P.PropertiesItem, line);
    PropertiesReadsAs(wanted.key);
    var lines := Split(line, '\n');
    FirstReading(P.PropertiesItem, "", wanted.key, text, P.Stored, lines);
    more := Visible(P.PropertiesItem, lines[1..]);
    var value := Entry(wanted.key, P.Stored(FirstLine(text)));
    assert ([value] + more)[0] == value && ([value] + more)[1..] == more;
    forall key ensures Reads(P.PropertiesItem, FileLines(line), "", key)
      == (if key == wanted.key then [P.Stored(FirstLine(text))] else []) + ItemValues("", more, "", key)
    {
      ReadingIsVisible(P.PropertiesItem, "", FileLines(line), "", key);
    }
  }

  lemma EmptyPropertiesRun(library: Library, wanted: Wanted)
    requires wanted.section == "" && !wanted.replacement.Object?
    ensures PropertiesText(library, "", [wanted]) == NewLine(library, wanted, wanted.replacement)
  {
    hide NewLine, Split, P.PropertiesItem;
    EmptyFile(P.PropertiesItem, "", wanted.key);
    assert [wanted][..0] == [] && [wanted][0] == wanted;
    assert P.PropertiesRun(library, [], [wanted]) == P.PropertiesStep(library, [], wanted);
    AppendNothing([NewLine(library, wanted, wanted.replacement)]);
  }

  /** Items without a value for any key, none of them a header, are no items. */
  lemma NoEntries(items: seq<Item>)
    requires forall key :: ItemValues("", items, "", key) == []
    ensures items != [] ==> !items[0].Entry?
  {
    if items != [] && items[0].Entry? {
      assert ItemValues("", items, "", items[0].key) != [];
    }
  }

  /** A properties file has no headers. */
  lemma {:induction false} VisibleEntries(lines: Lines)
    ensures forall item :: item in Visible(P.PropertiesItem, lines) ==> item.Entry?
    decreases |lines|
  {
    hide P.PropertiesKey;
    if lines != [] { VisibleEntries(lines[1..]); }
  }

  ghost predicate Separators(s: string) {
    forall i :: 0 <= i < |s| ==> P.Separator(s[i])
  }

  lemma {:induction false} RunIs(s: string)
    ensures var n := P.SeparatorRun(s); Separators(s[..n]) && (n < |s| ==> !P.Separator(s[n]))
    decreases |s|
  {
    hide P.Separator;
    if s != "" && P.Separator(s[0]) {
      RunIs(s[1..]);
      var n := P.SeparatorRun(s[1..]);
      assert forall i :: 0 < i <= n ==> s[i] == s[1..][..n][i - 1];
    }
  }

  lemma {:induction false} RunOf(s: string, t: string)
    ensures var n := P.SeparatorRun(s);
      P.SkipSeparators(s + t) == if n < |s| then s[n..] + t else P.SkipSeparators(t)
    decreases |s|
  {
    hide P.Separator;
    if s == "" {
      assert s + t == t;
    } else {
      assert (s + t)[1..] == s[1..] + t && (s + t)[0] == s[0];
      if P.Separator(s[0]) {
        RunOf(s[1..], t);
        var n := P.SeparatorRun(s[1..]);
        assert s[n + 1..] == s[1..][n..];
      }
    }
  }

  lemma {:induction false} SeparatorsInvisible(s: string)
    requires Separators(s) && Visible(P.PropertiesItem, Split(s, '\n')) == []
    ensures Blank(s)
    decreases |s|
  {
    hide P.PropertiesItem, Visible, Whitespace, P.Separator;
    var i := Position(s, c => c == '\n');
    if i < |s| {
      VisibleAppend(P.PropertiesItem, [s[..i]], Split(s[i + 1..], '\n'));
      SeparatorsOther(s[..i]);
      SeparatorsInvisible(s[i + 1..]);
      BreakIsBlank();
      assert s == s[..i] + [s[i]] + s[i + 1..];
    } else {
      SeparatorsOther(s);
    }
  }

  lemma BreakIsBlank()
    ensures Whitespace('\n')
  {}

  lemma SeparatorsOther(s: string)
    requires Separators(s) && Visible(P.PropertiesItem, [s]) == []
    ensures Blank(s)
  {
    OneVisible(P.PropertiesItem, s);
    if !Blank(s) {
      SeparatorsEntry(s);
      assert false;
    }
  }

  lemma SeparatorsEntry(s: string)
    requires Separators(s) && !Blank(s)
    ensures P.PropertiesItem(s).Entry?
  {
    hide Whitespace;
    var left := TrimStartParts(s);
    AppendNothing(left);
    assert TrimStart(s) != "" && TrimStart(s)[0] == s[|left|];
  }

  lemma {:induction false} SameStoredIsOneLine(text: string)
    requires P.Stored(FirstLine(text)) == P.Stored(text)
    requires var rest := AfterFirstLine(text); rest == "" || Visible(P.PropertiesItem, Split(rest[1..], '\n')) == []
    ensures OneLine(text)
  {
    hide FirstLine, AfterFirstLine, Visible, Split, Blank, P.Stored;
    var rest := AfterFirstLine(text);
    BrokenLine("", text);
    if !Blank(rest) {
      SameStored(FirstLine(text), rest);
      NothingStored(rest);
      SeparatorsInvisible(rest[1..]);
      BlankAfterBreak(rest);
      assert false;
    }
  }

  /** What stands behind a text and is not stored is blank, or ends a run of separators. */
  lemma {:induction false} SameStored(first: string, rest: string)
    requires P.Stored(first) == P.Stored(first + rest) && !Blank(rest)
    ensures Trim(P.SkipSeparators(rest)) == ""
  {
    hide Whitespace, Trim, P.Separator, P.SeparatorRun, Blank;
    var n := P.SeparatorRun(first);
    RunOf(first, rest);
    if n < |first| {
      PrefixTrim(first[n..], rest);
    } else {
      NothingLeft(first, n);
    }
  }

  lemma NothingLeft(s: string, n: nat)
    requires n == |s|
    ensures Trim(s[n..]) == ""
  {}

  lemma BlankAfterBreak(rest: string)
    requires rest != "" && rest[0] == '\n' && Blank(rest[1..])
    ensures Blank(rest)
  {
    assert rest == [rest[0]] + rest[1..];
  }

  lemma NothingStored(rest: string)
    requires Trim(P.SkipSeparators(rest)) == ""
    ensures Separators(rest) && (rest == "" ==> Blank(rest))
    ensures rest != "" ==> Separators(rest[1..])
  {
    hide Whitespace, Trim, P.Separator;
    RunIs(rest);
    var n := P.SeparatorRun(rest);
    if n < |rest| {
      InkIsNoSeparator(rest[n]);
      VisibleIsKept(rest[n..]);
      assert false;
    }
    assert rest[..n] == rest;
  }

  lemma InkIsNoSeparator(c: char)
    requires !P.Separator(c)
    ensures !Whitespace(c)
  {}

  lemma VisibleIsKept(s: string)
    requires s != "" && !Whitespace(s[0])
    ensures Trim(s) != ""
  {
    hide Whitespace, Trim;
    var left, right := TrimParts(s);
    BlankAppend(left, right);
    assert Trim(s) == "" ==> s == left + right;
    assert s[0] in s;
  }
}
