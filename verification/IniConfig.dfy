/** The INI parser (src/runtime/docker/configuration/line.rs:89-166),
    on the lines of a file. */
module IniConfig {
  import opened Text
  import opened Json
  import opened ConfigLines

  // ---- INI ------------------------------------------------------------------------------

  predicate HeaderText(trimmed: string) {
    trimmed != "" && trimmed[0] == '[' && trimmed[|trimmed| - 1] == ']'
  }

  function IniItem(line: string): Item {
    var trimmed := Trim(line);
    if HeaderText(trimmed) then Header(trimmed[1..|trimmed| - 1]) else
      match SplitOnce(trimmed, Delimiter)
      case Some(pair) => Entry(Trim(pair.0), Trim(pair.1))
      case None => Other
  }

  /** The position of the first header, else the length. */
  function FirstHeader(lines: Lines): (i: nat)
    ensures i <= |lines|
  {
    if lines == [] || HeaderText(Trim(lines[0])) then 0 else FirstHeader(lines[1..]) + 1
  }

  /** The position of the first header of that name, else the length. */
  function FindHeader(lines: Lines, header: string): (i: nat)
    ensures i <= |lines|
  {
    if lines == [] || Trim(lines[0]) == header then 0 else FindHeader(lines[1..], header) + 1
  }

  function WantedOf(path: string, replacement: Value): (wanted: Wanted)
    ensures wanted.replacement == replacement
  {
    match SplitOnce(path, c => c == '.')
    case Some(pair) => Wanted(pair.0, pair.1, replacement)
    case None => Wanted("", path, replacement)
  }

  /** What a path means: its first dot ends the section, and without one the key
      stands before the first header. */
  predicate Names(path: string, section: string, key: string) {
    || (section == "" && key == path && '.' !in path)
    || (path == section + ['.'] + key && '.' !in section)
  }

  lemma PathNames(path: string, replacement: Value, section: string, key: string)
    ensures Names(path, section, key) <==> WantedOf(path, replacement) == Wanted(section, key, replacement)
  {
    var dot := (c: char) => c == '.';
    if Names(path, section, key) && '.' in path { SplitOnceAt(section, '.', key, dot); }
    var i := Position(path, dot);
    if i < |path| {
      assert path == path[..i] + ['.'] + path[i + 1..];
      assert '.' !in path[..i];
    }
  }

  /** How an entry may be written: padded, and with either delimiter. */
  lemma EntryIsRead(key: string, delimiter: char, value: string, a: string, b: string, c: string, d: string)
    requires delimiter in {'=', ':'} && '=' !in key && ':' !in key && (key != "" ==> key[0] != '[')
    requires Trimmed(key) && Trimmed(value) && Blank(a) && Blank(b) && Blank(c) && Blank(d)
    requires key != "" || b == ""
    ensures IniItem(a + (key + b + [delimiter] + c + value) + d) == Entry(key, value)
  {
    hide IniItem, Whitespace, Blank, Trimmed, TrimStart, TrimEnd, Trim;
    var core := key + b + [delimiter] + c + value;
    ShownEntry(key, delimiter, value, b, c);
    TrimIgnoresPadding(a, core, d);
    SplitEntry(a + core + d, key, delimiter, value, b, c);
  }

  lemma SplitEntry(line: string, key: string, delimiter: char, value: string, b: string, c: string)
    requires delimiter in {'=', ':'} && '=' !in key && ':' !in key && (key != "" ==> key[0] != '[')
    requires Trimmed(key) && Trimmed(value) && Blank(b) && Blank(c) && (key != "" || b == "")
    requires Trim(line) == key + b + [delimiter] + if value == "" then "" else c + value
    ensures IniItem(line) == Entry(key, value)
  {
    hide Whitespace, Blank, Trimmed, TrimStart, TrimEnd, Trim;
    var front, tail := key + b, if value == "" then "" else c + value;
    assert Trim(line)[0] == (if key == "" then delimiter else key[0]);
    NoDelimiterInBlank(b);
    SplitOnceAt(front, delimiter, tail, Delimiter);
    EntryParts(key, value, b, c);
  }

  lemma EntryParts(key: string, value: string, b: string, c: string)
    requires Trimmed(key) && Trimmed(value) && Blank(b) && Blank(c)
    ensures Trim(key + b) == key && Trim(if value == "" then "" else c + value) == value
  {
    hide Whitespace, Blank, Trimmed, TrimStart, TrimEnd, Trim;
    assert "" + key + b == key + b && c + value + "" == c + value;
    NothingIsBlank();
    TrimOfPadded("", key, b);
    TrimOfPadded(c, value, "");
    TrimIsTrimmed("");
  }

  lemma NothingIsBlank()
    ensures Blank("") && Trimmed("")
  {}

  /** What is left of an entry once it is trimmed. */
  lemma ShownEntry(key: string, delimiter: char, value: string, b: string, c: string)
    requires delimiter in {'=', ':'} && Trimmed(key) && Trimmed(value) && Blank(b) && Blank(c) && (key != "" || b == "")
    ensures Trim(key + b + [delimiter] + c + value) == key + b + [delimiter] + if value == "" then "" else c + value
  {
    hide Whitespace, TrimStart, TrimEnd, Trim;
    EqualsIsVisible();
    ColonIsVisible();
    var shown := key + b + [delimiter] + if value == "" then "" else c + value;
    assert shown[0] == (if key == "" then delimiter else key[0]);
    assert shown[|shown| - 1] == (if value == "" then delimiter else value[|value| - 1]);
    var rest := if value == "" then c else "";
    assert key + b + [delimiter] + c + value == "" + shown + rest;
    TrimOfPadded("", shown, rest);
  }

  lemma NoDelimiterInBlank(b: string)
    requires Blank(b)
    ensures '=' !in b && ':' !in b
  {
    EqualsIsVisible();
    ColonIsVisible();
  }

  lemma ColonIsVisible()
    ensures !Whitespace(':')
  {}

  /** How a header may be written. */
  lemma HeaderIsRead(name: string, a: string, b: string)
    requires Blank(a) && Blank(b)
    ensures IniItem(a + (['['] + name + [']']) + b) == Header(name)
  {
    hide Whitespace, Blank, TrimStart, TrimEnd, Trim;
    var shown := ['['] + name + [']'];
    assert Trimmed(shown) by {
      BracketIsVisible();
      assert shown[|shown| - 1] == ']';
    }
    TrimOfPadded(a, shown, b);
    assert shown[1..|shown| - 1] == name;
  }

  /** Anything else says nothing. */
  lemma PlainLineIsOther(line: string)
    requires '=' !in line && ':' !in line && ('[' !in line || ']' !in line)
    ensures IniItem(line) == Other
  {
    hide Trim;
    TrimIsInside(line);
  }

  function IniInserted(library: Library, lines: Lines, wanted: Wanted): Lines {
    var line := NewLine(library, wanted, wanted.replacement);
    var header := ['['] + wanted.section + [']'];
    if wanted.section == "" then
      var i := FirstHeader(lines);
      lines[..i] + [line] + lines[i..]
    else
      var start := FindHeader(lines, header);
      if start < |lines| then
        var i := start + 1 + FirstHeader(lines[start + 1..]);
        lines[..i] + [line] + lines[i..]
      else
        (if lines == [] || lines[|lines| - 1] == "" then lines else lines + [""]) + [header, line]
  }

  function IniStep(library: Library, lines: Lines, wanted: Wanted): Lines {
    var rewritten := Rewritten(IniItem, library, "", lines, wanted);
    if Reads(IniItem, lines, wanted.section, wanted.key) != [] || wanted.replacement.Object? then rewritten
    else IniInserted(library, rewritten, wanted)
  }

  /** One entry of the loop over the wanted paths. */
  method ReplaceIni(library: Library, before: Lines, path: string, replacement: Value) returns (lines: Lines)
    ensures lines == IniStep(library, before, WantedOf(path, replacement))
  {
    hide IniInserted, Rewritten, Reads, WantedOf;
    var wanted := WantedOf(path, replacement);
    var replaced;
    lines, replaced := RewriteIni(library, before, wanted);
    if !replaced && !wanted.replacement.Object? {
      lines := InsertIni(library, lines, wanted);
    }
  }

  /** The loop over the lines. */
  method RewriteIni(library: Library, before: Lines, wanted: Wanted) returns (lines: Lines, replaced: bool)
    ensures lines == Rewritten(IniItem, library, "", before, wanted)
    ensures replaced <==> Reads(IniItem, before, wanted.section, wanted.key) != []
  {
    hide RewrittenLine, IniItem, OneValue, NextSection;
    var section := "";
    replaced := false;
    lines := before;
    var i := 0;
    while i < |lines|
      invariant i <= |lines| == |before|
      invariant lines[i..] == before[i..]
      invariant Rewritten(IniItem, library, "", before, wanted)
        == lines[..i] + Rewritten(IniItem, library, section, before[i..], wanted)
      invariant Reads(IniItem, before, wanted.section, wanted.key) != []
        <==> replaced || Values(IniItem, section, before[i..], wanted.section, wanted.key) != []
    {
      var line := lines[i];
      assert before[i..][0] == line && before[i..][1..] == before[i + 1..];
      ghost var done := lines[..i];
      var changed, next, matched := IniLine(library, section, line, wanted);
      lines := lines[i := changed];
      section := next;
      replaced := replaced || matched;
      i := i + 1;
      assert lines[..i] == done + [changed];
    }
    assert before[i..] == [] && lines[..i] == lines;
  }

  /** The body of the loop over the lines. */
  method IniLine(library: Library, section: string, line: string, wanted: Wanted)
    returns (changed: string, next: string, matched: bool)
    ensures changed == RewrittenLine(IniItem, library, section, line, wanted)
    ensures next == NextSection(IniItem, section, line)
    ensures matched <==> OneValue(IniItem, section, line, wanted.section, wanted.key) != []
  {
    changed, next, matched := line, section, false;
    var trimmed := Trim(line);
    if HeaderText(trimmed) {
      next := trimmed[1..|trimmed| - 1];
      return;
    }
    if section != wanted.section { return; }
    var pair := SplitOnce(trimmed, Delimiter);
    if pair.None? || Trim(pair.value.0) != wanted.key { return; }
    var value := ReplacementForCurrent(wanted.replacement, Trim(pair.value.1));
    if value.Some? {
      changed := wanted.key + ['='] + ScalarText(library, value.value);
    }
    matched := true;
  }

  method InsertIni(library: Library, before: Lines, wanted: Wanted) returns (lines: Lines)
    ensures lines == IniInserted(library, before, wanted)
  {
    hide IniItem;
    lines := before;
    var line := wanted.key + ['='] + ScalarText(library, wanted.replacement);
    if wanted.section == "" {
      var insertion := FirstHeader(lines);
      lines := lines[..insertion] + [line] + lines[insertion..];
    } else {
      var header := ['['] + wanted.section + [']'];
      var start := FindHeader(lines, header);
      if start < |lines| {
        var insertion := start + 1 + FirstHeader(lines[start + 1..]);
        lines := lines[..insertion] + [line] + lines[insertion..];
      } else {
        if lines != [] && lines[|lines| - 1] != "" {
          lines := lines + [""];
        }
        lines := lines + [header];
        lines := lines + [line];
      }
    }
  }

  // ---- what an INI run does ------------------------------------------------------------------

  /** A key the notation can express. */
  predicate IniKey(key: string) {
    && Trimmed(key)
    && (forall i :: 0 <= i < |key| ==> !Delimiter(key[i]))
    && (key != "" ==> key[0] != '[')
  }

  /** `key=text` without the whitespace behind it, and that whitespace. */
  lemma WrittenParts(key: string, text: string) returns (kept: string, tail: string)
    requires Trimmed(key)
    ensures Blank(tail) && text == kept + tail
    ensures Trimmed(key + ['='] + kept) && Trim(kept) == Trim(text)
  {
    hide Whitespace, TrimStart, TrimEnd, Trim;
    var left, right := TrimParts(text);
    var value := Trim(text);
    kept, tail := if value == "" then "" else left + value, if value == "" then left + right else right;
    assert Blank(tail) by { BlankAppend(left, right); }
    EqualsIsVisible();
    assert "" + kept + tail == text;
    TrimIgnoresPadding("", kept, tail);
  }

  lemma IniLineReads(key: string, text: string)
    requires IniKey(key)
    ensures IniItem(key + ['='] + text) == Entry(key, Trim(text))
  {
    hide Whitespace, Trim, Trimmed;
    var kept, tail := WrittenParts(key, text);
    var shown := key + ['='] + kept;
    assert key + ['='] + text == "" + shown + tail;
    TrimOfPadded("", shown, tail);
    SplitOnceAt(key, '=', kept, Delimiter);
    TrimIsTrimmed(key);
    assert !HeaderText(shown);
  }

  /** Those are all the keys that every text can be written for. */
  lemma IniKeyIsExact(key: string)
    ensures (forall text :: IniItem(key + ['='] + text) == Entry(key, Trim(text))) <==> IniKey(key)
  {
    if IniKey(key) {
      forall text ensures IniItem(key + ['='] + text) == Entry(key, Trim(text)) { IniLineReads(key, text); }
    } else {
      BadIniKey(key);
    }
  }

  lemma BadIniKey(key: string)
    requires !IniKey(key)
    ensures IniItem(key + ['='] + "]") != Entry(key, Trim("]"))
  {
    hide Whitespace, Trim;
    var line := key + ['='] + "]";
    if IniItem(line) == Entry(key, Trim("]")) {
      var left := SplitOnce(Trim(line), Delimiter).value.0;
      TrimIsTrimmed(left);
      TrimIsInside(left);
      assert Trimmed(line) by { BracketIsVisible(); EqualsIsVisible(); }
      TrimIsTrimmed(line);
      assert false;
    }
  }

  lemma BracketIsVisible()
    ensures !Whitespace(']') && !Whitespace('[')
  {
  }

  lemma TrimIsInside(s: string)
    ensures forall i :: 0 <= i < |Trim(s)| ==> Trim(s)[i] in s
  {
    hide Whitespace, Trim;
    var left, right := TrimParts(s);
    assert forall i :: 0 <= i < |Trim(s)| ==> s[|left| + i] == Trim(s)[i];
  }

  lemma IniReadsBack(library: Library, wanted: Wanted)
    requires IniKey(wanted.key)
    ensures ReadsBack(IniItem, library, wanted, Trim)
  {
    hide IniItem;
    forall value | Writes(wanted, value)
      ensures IniItem(NewLine(library, wanted, value)) == Entry(wanted.key, Trim(ScalarText(library, value)))
    {
      IniLineReads(wanted.key, ScalarText(library, value));
    }
  }

  lemma {:induction false} NoHeadersKeepSection(section: string, lines: Lines)
    requires forall j :: 0 <= j < |lines| ==> !IniItem(lines[j]).Header?
    ensures SectionAfter(IniItem, section, lines) == section && Headers(IniItem, lines) == []
    decreases |lines|
  {
    hide IniItem;
    if lines != [] { NoHeadersKeepSection(section, lines[1..]); }
  }

  lemma HeaderReads(section: string)
    ensures IniItem(['['] + section + [']']) == Header(section)
    ensures IniItem("") == Other
  {}

  lemma InsertedBefore(library: Library, lines: Lines, i: nat, wanted: Wanted)
    requires IniKey(wanted.key) && i <= |lines| && SectionAfter(IniItem, "", lines[..i]) == wanted.section
    requires Reads(IniItem, lines, wanted.section, wanted.key) == [] && !wanted.replacement.Object?
    ensures Replaces(IniItem, library, wanted, Trim, lines, lines[..i] + [NewLine(library, wanted, wanted.replacement)] + lines[i..])
  {
    hide IniItem, Values, SectionAfter, Headers, NewLine, Trim;
    var before, behind := lines[..i], lines[i..];
    assert lines == before + behind;
    IniLineReads(wanted.key, ScalarText(library, wanted.replacement));
    assert NewLine(library, wanted, wanted.replacement) == wanted.key + ['='] + ScalarText(library, wanted.replacement) by {
      LineText(library, wanted, wanted.replacement);
    }
    var after := before + [NewLine(library, wanted, wanted.replacement)] + behind;
    ReadingAppend(IniItem, "", before, behind, wanted.section, wanted.key);
    forall name, key
      ensures Reads(IniItem, after, name, key) == (
        if name == wanted.section && key == wanted.key then Settled(library, wanted, Trim, Reads(IniItem, lines, name, key))
        else Reads(IniItem, lines, name, key))
    {
      InsertingReads(IniItem, library, before, behind, wanted, wanted.replacement, Trim, name, key);
    }
    InsertingReads(IniItem, library, before, behind, wanted, wanted.replacement, Trim, "", "");
  }

  lemma LineText(library: Library, wanted: Wanted, value: Value)
    ensures NewLine(library, wanted, value) == wanted.key + ['='] + ScalarText(library, value)
  {
  }

  /** Nothing that can be read differs, save headers added at the end. */
  ghost predicate SameReading(before: Lines, after: Lines) {
    && Headers(IniItem, before) <= Headers(IniItem, after)
    && forall name, key :: Reads(IniItem, after, name, key) == Reads(IniItem, before, name, key)
  }

  lemma ReplacesFrom(library: Library, wanted: Wanted, before: Lines, between: Lines, after: Lines)
    requires SameReading(before, between) && Replaces(IniItem, library, wanted, Trim, between, after)
    ensures Replaces(IniItem, library, wanted, Trim, before, after)
  {}

  lemma RewrittenKeepsReading(library: Library, lines: Lines, wanted: Wanted)
    requires IniKey(wanted.key)
    requires Reads(IniItem, lines, wanted.section, wanted.key) == []
    ensures SameReading(lines, Rewritten(IniItem, library, "", lines, wanted))
  {
    hide IniItem, Values, Headers, Rewritten, ReadsBack;
    var after := Rewritten(IniItem, library, "", lines, wanted);
    IniReadsBack(library, wanted);
    forall name, key ensures Reads(IniItem, after, name, key) == Reads(IniItem, lines, name, key) {
      RewritingReads(IniItem, library, "", lines, wanted, Trim, name, key);
    }
    RewritingReads(IniItem, library, "", lines, wanted, Trim, "", "");
  }

  lemma RewrittenReplaces(library: Library, lines: Lines, wanted: Wanted)
    requires IniKey(wanted.key)
    requires Reads(IniItem, lines, wanted.section, wanted.key) != [] || wanted.replacement.Object?
    ensures Replaces(IniItem, library, wanted, Trim, lines, Rewritten(IniItem, library, "", lines, wanted))
  {
    hide IniItem, Values, Headers, Rewritten, ReadsBack;
    var after := Rewritten(IniItem, library, "", lines, wanted);
    IniReadsBack(library, wanted);
    forall name, key
      ensures Reads(IniItem, after, name, key) == (
        if name == wanted.section && key == wanted.key then Settled(library, wanted, Trim, Reads(IniItem, lines, name, key))
        else Reads(IniItem, lines, name, key))
    {
      RewritingReads(IniItem, library, "", lines, wanted, Trim, name, key);
    }
    RewritingReads(IniItem, library, "", lines, wanted, Trim, "", "");
  }

  lemma SectionBehindHeader(before: Lines, line: string, middle: Lines)
    requires IniItem(line).Header? && forall j :: 0 <= j < |middle| ==> !IniItem(middle[j]).Header?
    ensures SectionAfter(IniItem, "", before + [line] + middle) == IniItem(line).name
  {
    hide IniItem, SectionAfter, Values;
    ReadingAppend(IniItem, "", before + [line], middle, "", "");
    ReadingAppend(IniItem, "", before, [line], "", "");
    OneHeaderLine(SectionAfter(IniItem, "", before), line);
    NoHeadersKeepSection(IniItem(line).name, middle);
  }

  lemma FoundHeader(line: string, section: string)
    requires Trim(line) == ['['] + section + [']']
    ensures IniItem(line) == Header(section)
  {}

  lemma {:induction false} BeforeFirstHeader(lines: Lines)
    ensures forall j :: 0 <= j < FirstHeader(lines) ==> !IniItem(lines[j]).Header?
    decreases |lines|
  {
    hide Trim;
    if lines != [] && !HeaderText(Trim(lines[0])) {
      BeforeFirstHeader(lines[1..]);
      assert forall j :: 0 < j < |lines| ==> lines[j] == lines[1..][j - 1];
    }
  }

  lemma {:induction false} FoundAt(lines: Lines, header: string)
    requires FindHeader(lines, header) < |lines|
    ensures Trim(lines[FindHeader(lines, header)]) == header
    decreases |lines|
  {
    hide Trim;
    if Trim(lines[0]) != header { FoundAt(lines[1..], header); }
  }

  lemma Slices<T>(s: seq<T>, i: nat, k: nat)
    requires i < |s| && k <= |s| - i - 1
    ensures s[..i + 1 + k] == s[..i] + [s[i]] + s[i + 1..][..k]
  {
  }

  /** Behind the section's first header and the lines up to the next one, that section holds. */
  lemma SectionAtInsertion(lines: Lines, section: string)
    requires FindHeader(lines, ['['] + section + [']']) < |lines|
    ensures var start := FindHeader(lines, ['['] + section + [']']);
      SectionAfter(IniItem, "", lines[..start + 1 + FirstHeader(lines[start + 1..])]) == section
  {
    hide IniItem, SectionAfter, FindHeader, FirstHeader, Trim;
    var start := FindHeader(lines, ['['] + section + [']']);
    var behind := lines[start + 1..];
    var more := FirstHeader(behind);
    FoundAt(lines, ['['] + section + [']']);
    FoundHeader(lines[start], section);
    BeforeFirstHeader(behind);
    SectionBehindHeader(lines[..start], lines[start], behind[..more]);
    Slices(lines, start, more);
  }

  lemma OneHeaderLine(section: string, line: string)
    requires IniItem(line).Header?
    ensures SectionAfter(IniItem, section, [line]) == IniItem(line).name
    ensures Headers(IniItem, [line]) == [IniItem(line).name]
    ensures forall name, key :: Values(IniItem, section, [line], name, key) == []
  {}

  /** Appending a header, with a blank line before it or not, adds no value. */
  lemma NewHeaderReads(lines: Lines, section: string, blank: bool)
    ensures var after := (if blank then lines + [""] else lines) + [['['] + section + [']']];
      SameReading(lines, after) && SectionAfter(IniItem, "", after) == section
  {
    HeaderReads(section);
    hide IniItem, Values, Headers, SectionAfter;
    var header := ['['] + section + [']'];
    if blank { AppendingReads(lines, ""); }
    var between := if blank then lines + [""] else lines;
    AppendingReads(between, header);
    ReadingAppend(IniItem, "", between, [header], "", "");
    OneHeaderLine(SectionAfter(IniItem, "", between), header);
  }

  lemma AppendingReads(lines: Lines, line: string)
    requires !IniItem(line).Entry?
    ensures SameReading(lines, lines + [line])
  {
    hide IniItem;
    assert [line][1..] == [];
    forall name, key ensures Reads(IniItem, lines + [line], name, key) == Reads(IniItem, lines, name, key) {
      ReadingAppend(IniItem, "", lines, [line], name, key);
      assert Values(IniItem, SectionAfter(IniItem, "", lines), [line], name, key) == [];
    }
    HeadersAppend(IniItem, lines, [line]);
  }

  lemma InsertedReplaces(library: Library, lines: Lines, wanted: Wanted)
    requires IniKey(wanted.key) && !wanted.replacement.Object?
    requires Reads(IniItem, lines, wanted.section, wanted.key) == []
    ensures Replaces(IniItem, library, wanted, Trim, lines, IniInserted(library, lines, wanted))
  {
    hide IniItem, Reads, NewLine, Headers, Settled, FirstHeader, FindHeader, SectionAfter;
    if wanted.section == "" {
      BeforeFirstHeader(lines);
      NoHeadersKeepSection("", lines[..FirstHeader(lines)]);
      InsertedBefore(library, lines, FirstHeader(lines), wanted);
    } else {
      var start := FindHeader(lines, ['['] + wanted.section + [']']);
      if start < |lines| {
        SectionAtInsertion(lines, wanted.section);
        InsertedBefore(library, lines, start + 1 + FirstHeader(lines[start + 1..]), wanted);
      } else {
        AppendedReplaces(library, lines, wanted, !(lines == [] || lines[|lines| - 1] == ""));
      }
    }
  }

  lemma AppendedReplaces(library: Library, lines: Lines, wanted: Wanted, blank: bool)
    requires IniKey(wanted.key) && !wanted.replacement.Object?
    requires Reads(IniItem, lines, wanted.section, wanted.key) == []
    ensures Replaces(IniItem, library, wanted, Trim, lines, (if blank then lines + [""] else lines)
      + [['['] + wanted.section + [']'], NewLine(library, wanted, wanted.replacement)])
  {
    hide IniItem, Reads, NewLine, Headers, Settled, SectionAfter;
    var front, header := if blank then lines + [""] else lines, ['['] + wanted.section + [']'];
    var line := NewLine(library, wanted, wanted.replacement);
    var between := front + [header];
    NewHeaderReads(lines, wanted.section, blank);
    assert between[..|between|] == between && between[|between|..] == [];
    InsertedBefore(library, between, |between|, wanted);
    assert between + [line] + [] == front + [header, line];
    ReplacesFrom(library, wanted, lines, between, between + [line] + []);
  }

  /** One wanted path: its key is replaced or added, everything else reads as before. */
  lemma IniStepReplaces(library: Library, lines: Lines, wanted: Wanted)
    requires IniKey(wanted.key)
    ensures Replaces(IniItem, library, wanted, Trim, lines, IniStep(library, lines, wanted))
  {
    hide IniItem, Reads, Rewritten, IniInserted, Headers, Settled;
    if Reads(IniItem, lines, wanted.section, wanted.key) != [] || wanted.replacement.Object? {
      RewrittenReplaces(library, lines, wanted);
    } else {
      var rewritten := Rewritten(IniItem, library, "", lines, wanted);
      RewrittenKeepsReading(library, lines, wanted);
      InsertedReplaces(library, rewritten, wanted);
      ReplacesFrom(library, wanted, lines, rewritten, IniInserted(library, rewritten, wanted));
    }
  }

  // ---- a whole INI run -------------------------------------------------------------------------

  datatype Find = Find(path: string, replacement: Value)

  function AllWanted(find: seq<Find>): (r: seq<Wanted>)
    ensures |r| == |find|
  {
    seq(|find|, i requires 0 <= i < |find| => WantedOf(find[i].path, find[i].replacement))
  }

  function IniRun(library: Library, lines: Lines, find: seq<Wanted>): Lines
    decreases |find|
  {
    if find == [] then lines else
      var last := |find| - 1;
      IniStep(library, IniRun(library, lines, find[..last]), find[last])
  }

  /** The loop of `apply_ini_parser` over the wanted paths. */
  method ApplyIni(library: Library, lines: Lines, find: seq<Find>) returns (after: Lines)
    ensures after == IniRun(library, lines, AllWanted(find))
  {
    hide IniStep, WantedOf;
    var wanted := AllWanted(find);
    after := lines;
    for k := 0 to |find|
      invariant after == IniRun(library, lines, wanted[..k])
    {
      after := ReplaceIni(library, after, find[k].path, find[k].replacement);
      assert wanted[..k + 1][..k] == wanted[..k];
    }
    assert wanted[..|find|] == wanted;
  }

  /** An INI run is a functional update: each wanted key reads its new value at
      every occurrence (at least one for a plain replacement), every other key
      keeps its values, and the headers that were there stay in order. */
  lemma IniIsFunctionalUpdate(library: Library, lines: Lines, find: seq<Wanted>)
    requires Distinct(find) && forall k :: 0 <= k < |find| ==> IniKey(find[k].key)
    ensures ReplacesAll(IniItem, library, find, Trim, lines, IniRun(library, lines, find))
  {
    hide IniStep, Replaces;
    var stages := seq(|find| + 1, k requires 0 <= k <= |find| => IniRun(library, lines, find[..k]));
    forall k | 0 <= k < |find| ensures Replaces(IniItem, library, find[k], Trim, stages[k], stages[k + 1]) {
      assert find[..k + 1][..k] == find[..k];
      IniStepReplaces(library, stages[k], find[k]);
    }
    assert find[..|find|] == find;
    StagesReplaceAll(IniItem, library, find, Trim, stages);
  }

  // ---- lines that are left alone -----------------------------------------------------------------

  function HeaderLine(section: string): string { ['['] + section + [']'] }

  /** All lines but the wanted entries stay as they are written, and in order;
      only headers of wanted sections are added, at the end. */
  ghost predicate KeepsLines(all: seq<Wanted>, before: Lines, after: Lines) {
    var kept, more := Untouched(IniItem, "", before, all), Untouched(IniItem, "", after, all);
    kept <= more && forall i :: |kept| <= i < |more| ==> exists k :: 0 <= k < |all| && more[i] == HeaderLine(all[k].section)
  }

  lemma {:induction false} IniKeepsLines(library: Library, lines: Lines, find: seq<Wanted>, all: seq<Wanted>)
    requires forall k :: 0 <= k < |find| ==> IniKey(find[k].key) && find[k] in all
    ensures KeepsLines(all, lines, IniRun(library, lines, find))
    decreases |find|
  {
    hide IniStep, Untouched, IniKey, IniItem;
    if find != [] {
      var last := |find| - 1;
      IniKeepsLines(library, lines, find[..last], all);
      IniStepKeepsLines(library, IniRun(library, lines, find[..last]), find[last], all);
    }
  }

  lemma IniStepKeepsLines(library: Library, lines: Lines, wanted: Wanted, all: seq<Wanted>)
    requires IniKey(wanted.key) && wanted in all
    ensures KeepsLines(all, lines, IniStep(library, lines, wanted))
  {
    hide IniItem, Untouched, IsWanted, Rewritten, ReadsBack, Reads, IniInserted;
    assert IsWanted(all, wanted.section, wanted.key) by { WantedIsWanted(all, wanted); }
    var rewritten := Rewritten(IniItem, library, "", lines, wanted);
    IniReadsBack(library, wanted);
    RewritingLeavesLines(IniItem, library, "", lines, wanted, Trim, all);
    if !wanted.replacement.Object? { InsertedKeepsLines(library, rewritten, wanted, all); }
  }

  lemma WantedIsWanted(all: seq<Wanted>, wanted: Wanted)
    requires wanted in all
    ensures IsWanted(all, wanted.section, wanted.key)
  {}

  lemma InsertedKeepsLines(library: Library, lines: Lines, wanted: Wanted, all: seq<Wanted>)
    requires IniKey(wanted.key) && wanted in all && !wanted.replacement.Object?
    ensures KeepsLines(all, lines, IniInserted(library, lines, wanted))
  {
    hide IniItem, Untouched, NewLine, FirstHeader, FindHeader, SectionAfter;
    var line := NewLine(library, wanted, wanted.replacement);
    LineText(library, wanted, wanted.replacement);
    IniLineReads(wanted.key, ScalarText(library, wanted.replacement));
    if wanted.section == "" {
      BeforeFirstHeader(lines);
      NoHeadersKeepSection("", lines[..FirstHeader(lines)]);
      InsertedLineKeepsLines(lines, FirstHeader(lines), wanted, line, all);
    } else {
      var start := FindHeader(lines, ['['] + wanted.section + [']']);
      if start < |lines| {
        SectionAtInsertion(lines, wanted.section);
        InsertedLineKeepsLines(lines, start + 1 + FirstHeader(lines[start + 1..]), wanted, line, all);
      } else {
        AppendedKeepsLines(lines, wanted, line, all, !(lines == [] || lines[|lines| - 1] == ""));
      }
    }
    hide KeepsLines;
  }

  lemma InsertedLineKeepsLines(lines: Lines, i: nat, wanted: Wanted, line: string, all: seq<Wanted>)
    requires i <= |lines| && SectionAfter(IniItem, "", lines[..i]) == wanted.section && wanted in all
    requires IniItem(line).Entry? && IniItem(line).key == wanted.key
    ensures KeepsLines(all, lines, lines[..i] + [line] + lines[i..])
  {
    hide IniItem, Untouched, IsWanted, SectionAfter;
    assert IsWanted(all, wanted.section, wanted.key) by { WantedIsWanted(all, wanted); }
    InsertingLeavesLines(IniItem, lines[..i], line, lines[i..], all);
    assert lines[..i] + lines[i..] == lines;
  }

  lemma AppendedKeepsLines(lines: Lines, wanted: Wanted, line: string, all: seq<Wanted>, blank: bool)
    requires wanted in all && IniItem(line).Entry? && IniItem(line).key == wanted.key
    ensures KeepsLines(all, lines, (if blank then lines + [""] else lines) + [['['] + wanted.section + [']'], line])
  {
    hide IniItem, Untouched, IsWanted, SectionAfter;
    assert IsWanted(all, wanted.section, wanted.key) by { WantedIsWanted(all, wanted); }
    var front, header := if blank then lines + [""] else lines, HeaderLine(wanted.section);
    HeaderReads(wanted.section);
    UntouchedAppend(IniItem, "", lines, [""], all);
    OneLineLeft(IniItem, SectionAfter(IniItem, "", lines), "", all);
    UntouchedAppend(IniItem, "", front, [header], all);
    OneLineLeft(IniItem, SectionAfter(IniItem, "", front), header, all);
    ReadingAppend(IniItem, "", front, [header], "", "");
    OneHeaderLine(SectionAfter(IniItem, "", front), header);
    InsertingLeavesLines(IniItem, front + [header], line, [], all);
    assert front + [header] + [line] + [] == front + [header, line] && front + [header] + [] == front + [header];
  }
}
