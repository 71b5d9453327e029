/** From the text of a file to its lines and back
    (src/runtime/docker/configuration/line.rs:29-31, 168-174).

    Writing the lines and reading them again may drop blank lines at the end
    and a carriage return at the end of a line, but nothing that can be read. */
module ConfigText {
  import opened Sequences
  import opened Text
  import opened ConfigLines

  /** `replace("\r\n", "\n")` */
  function Normalized(text: string): string {
    if text == "" then ""
    else if |text| >= 2 && text[0] == '\r' && text[1] == '\n' then ['\n'] + Normalized(text[2..])
    else [text[0]] + Normalized(text[1..])
  }

  function StripReturn(line: string): string {
    if line != "" && line[|line| - 1] == '\r' then line[..|line| - 1] else line
  }

  function StripReturns(parts: Lines): Lines {
    if parts == [] then [] else [StripReturn(parts[0])] + StripReturns(parts[1..])
  }

  /** `str::lines`: only a line that is ended loses its carriage return. */
  function LinesOf(text: string): Lines {
    var parts := Split(text, '\n');
    var last := |parts| - 1;
    StripReturns(parts[..last]) + if parts[last] == "" then [] else [parts[last]]
  }

  /** The lines a parser sees. */
  function FileLines(text: string): Lines {
    LinesOf(Normalized(text))
  }

  function Joined(lines: Lines): string {
    if lines == [] then "" else if |lines| == 1 then lines[0] else lines[0] + ['\n'] + Joined(lines[1..])
  }

  predicate EndsWithNewline(text: string) {
    text != "" && text[|text| - 1] == '\n'
  }

  /** `finish_lines` */
  function Finished(lines: Lines, trailing: bool): string {
    var output := Joined(lines);
    if trailing && !EndsWithNewline(output) then output + ['\n'] else output
  }

  // ---- what is visible of lines -----------------------------------------------------------

  /** The headers and entries, in order. */
  function Visible(format: Format, lines: Lines): seq<Item> {
    if lines == [] then [] else VisibleItem(format, lines[0]) + Visible(format, lines[1..])
  }

  function VisibleItem(format: Format, line: string): seq<Item> {
    if format(line) == Other then [] else [format(line)]
  }

  /** A carriage return at the end of a line cannot be read, nor can a blank line. */
  ghost predicate EndBlind(format: Format) {
    && (forall line :: Blank(line) ==> format(line) == Other)
    && (forall line :: format(line + ['\r']) == format(line))
  }

  lemma {:induction false} VisibleAppend(format: Format, a: Lines, b: Lines)
    ensures Visible(format, a + b) == Visible(format, a) + Visible(format, b)
    decreases |a|
  {
    if a == [] {
      AppendNothing(b);
    } else {
      assert (a + b)[1..] == a[1..] + b;
      VisibleAppend(format, a[1..], b);
      Regroup(VisibleItem(format, a[0]), Visible(format, a[1..]), Visible(format, b));
    }
  }

  /** Values of a sequence of items. */
  function ItemValues(section: string, items: seq<Item>, name: string, key: string): seq<string>
    decreases |items|
  {
    if items == [] then [] else
      match items[0]
      case Header(next) => ItemValues(next, items[1..], name, key)
      case Entry(k, value) => (if section == name && k == key then [value] else []) + ItemValues(section, items[1..], name, key)
      case Other => ItemValues(section, items[1..], name, key)
  }

  function ItemHeaders(items: seq<Item>): seq<string> {
    if items == [] then [] else
      (if items[0].Header? then [items[0].name] else []) + ItemHeaders(items[1..])
  }

  /** What can be read depends on the visible items alone. */
  lemma {:induction false} ReadingIsVisible(format: Format, section: string, lines: Lines, name: string, key: string)
    ensures Values(format, section, lines, name, key) == ItemValues(section, Visible(format, lines), name, key)
    ensures Headers(format, lines) == ItemHeaders(Visible(format, lines))
    decreases |lines|
  {
    if lines != [] {
      ReadingIsVisible(format, NextSection(format, section, lines[0]), lines[1..], name, key);
      var item := format(lines[0]);
      var rest := Visible(format, lines[1..]);
      AppendNothing(rest);
      if item == Other {
        assert Visible(format, lines) == rest;
      } else {
        assert Visible(format, lines) == [item] + rest && ([item] + rest)[1..] == rest;
      }
    }
  }

  lemma {:induction false} ReturnsAreInvisible(format: Format, parts: Lines)
    requires EndBlind(format)
    ensures Visible(format, StripReturns(parts)) == Visible(format, parts)
    decreases |parts|
  {
    if parts != [] {
      ReturnsAreInvisible(format, parts[1..]);
      var stripped := StripReturn(parts[0]);
      if stripped != parts[0] { assert parts[0] == stripped + ['\r']; }
      assert StripReturns(parts)[1..] == StripReturns(parts[1..]);
    }
  }

  lemma LinesAreVisible(format: Format, text: string)
    requires EndBlind(format)
    ensures Visible(format, LinesOf(text)) == Visible(format, Split(text, '\n'))
  {
    hide EndBlind, StripReturns;
    var parts := Split(text, '\n');
    var last := |parts| - 1;
    ReturnsAreInvisible(format, parts[..last]);
    VisibleAppend(format, StripReturns(parts[..last]), if parts[last] == "" then [] else [parts[last]]);
    VisibleAppend(format, parts[..last], [parts[last]]);
    assert parts == parts[..last] + [parts[last]];
    if parts[last] == "" { BlankIsInvisible(format); }
  }

  lemma BlankIsInvisible(format: Format)
    requires EndBlind(format)
    ensures Visible(format, [""]) == []
  {
    assert Blank("") && format("") == Other;
    assert [""][1..] == [];
  }

  // ---- splitting -----------------------------------------------------------------------------

  lemma SplitFirst(c: char, text: string)
    ensures Split([c] + text, '\n') ==
      if c == '\n' then [""] + Split(text, '\n') else [[c] + Split(text, '\n')[0]] + Split(text, '\n')[1..]
  {
    var s := [c] + text;
    assert s[1..] == text;
    var i := Position(s, x => x == '\n');
    if c == '\n' {
      assert s[..i] == "" && s[i + 1..] == text;
    } else {
      var j := Position(text, x => x == '\n');
      assert i == j + 1;
      if j < |text| {
        assert s[..i] == [c] + text[..j] && s[i + 1..] == text[j + 1..];
        assert Split(text, '\n') == [text[..j]] + Split(text[j + 1..], '\n');
      }
    }
  }

  predicate Similar(a: string, b: string) {
    b == a || b == a + ['\r']
  }

  lemma {:induction false} NormalizedIsSimilar(text: string)
    ensures var a, b := Split(Normalized(text), '\n'), Split(text, '\n');
      |a| == |b| && forall i :: 0 <= i < |a| ==> Similar(a[i], b[i])
    decreases |text|
  {
    hide Split;
    if text == "" {
      assert Normalized(text) == text;
    } else if |text| >= 2 && text[0] == '\r' && text[1] == '\n' {
      var rest := text[2..];
      NormalizedIsSimilar(rest);
      SplitFirst('\n', Normalized(rest));
      SplitFirst('\n', rest);
      SplitFirst('\r', ['\n'] + rest);
      assert text == ['\r'] + (['\n'] + rest);
    } else {
      var rest := text[1..];
      NormalizedIsSimilar(rest);
      SplitFirst(text[0], Normalized(rest));
      SplitFirst(text[0], rest);
      assert text == [text[0]] + rest;
    }
  }

  lemma {:induction false} SimilarIsVisible(format: Format, a: Lines, b: Lines)
    requires EndBlind(format) && |a| == |b| && forall i :: 0 <= i < |a| ==> Similar(a[i], b[i])
    ensures Visible(format, a) == Visible(format, b)
    decreases |a|
  {
    if a != [] {
      assert Similar(a[0], b[0]);
      assert forall i :: 0 <= i < |a[1..]| ==> Similar(a[1..][i], b[1..][i]);
      SimilarIsVisible(format, a[1..], b[1..]);
    }
  }

  predicate Clean(s: string) {
    forall i :: 0 <= i < |s| ==> s[i] != '\n'
  }

  predicate AllClean(lines: Lines) {
    forall i :: 0 <= i < |lines| ==> Clean(lines[i])
  }

  lemma SplitClean(line: string)
    requires Clean(line)
    ensures Split(line, '\n') == [line]
  {
  }

  lemma SplitAt(line: string, text: string)
    requires Clean(line)
    ensures Split(line + ['\n'] + text, '\n') == [line] + Split(text, '\n')
  {
    hide Position;
    var s := line + ['\n'] + text;
    PositionAt(line, '\n', text, c => c == '\n');
    assert s[..|line|] == line && s[|line| + 1..] == text;
  }

  lemma {:induction false} SplitConcat(a: string, b: string)
    ensures Split(a + ['\n'] + b, '\n') == Split(a, '\n') + Split(b, '\n')
    decreases |a|
  {
    hide Split;
    if a == "" {
      SplitClean("");
      SplitFirst('\n', b);
      assert a + ['\n'] + b == ['\n'] + b;
    } else {
      var c, more := a[0], a[1..];
      SplitConcat(more, b);
      SplitFirst(c, more + ['\n'] + b);
      SplitFirst(c, more);
      assert a == [c] + more;
      Regroup([c], more, ['\n']);
      Regroup([c], more + ['\n'], b);
      var parts := Split(more, '\n');
      assert (parts + Split(b, '\n'))[1..] == parts[1..] + Split(b, '\n');
      Regroup([[c] + parts[0]], parts[1..], Split(b, '\n'));
    }
  }

  // ---- writing --------------------------------------------------------------------------------

  /** Reading the line again, with the breaks it may contain, gives what it said. */
  ghost predicate Whole(format: Format, line: string) {
    Visible(format, Split(line, '\n')) == Visible(format, [line])
  }

  ghost predicate AllWhole(format: Format, lines: Lines) {
    forall i :: 0 <= i < |lines| ==> Whole(format, lines[i])
  }

  lemma CleanIsWhole(format: Format, lines: Lines)
    requires AllClean(lines)
    ensures AllWhole(format, lines)
  {
    hide Visible, Split;
    forall i | 0 <= i < |lines| ensures Whole(format, lines[i]) { SplitClean(lines[i]); }
  }

  lemma {:induction false} JoinedIsVisible(format: Format, lines: Lines)
    requires AllWhole(format, lines) && lines != []
    ensures Visible(format, Split(Joined(lines), '\n')) == Visible(format, lines)
    decreases |lines|
  {
    hide Split, Visible;
    assert Whole(format, lines[0]);
    if |lines| == 1 {
      assert lines == [lines[0]];
    } else {
      var more := Joined(lines[1..]);
      assert forall i :: 0 <= i < |lines[1..]| ==> lines[1..][i] == lines[i + 1];
      JoinedIsVisible(format, lines[1..]);
      SplitConcat(lines[0], more);
      VisibleAppend(format, Split(lines[0], '\n'), Split(more, '\n'));
      VisibleAppend(format, [lines[0]], lines[1..]);
      assert lines == [lines[0]] + lines[1..];
    }
  }

  /** What a parser sees of a file is what is between its line breaks. */
  lemma FileIsSplit(format: Format, text: string)
    requires EndBlind(format)
    ensures Visible(format, FileLines(text)) == Visible(format, Split(text, '\n'))
  {
    hide Split, LinesOf, EndBlind, Normalized, Visible;
    LinesAreVisible(format, Normalized(text));
    NormalizedIsSimilar(text);
    SimilarIsVisible(format, Split(Normalized(text), '\n'), Split(text, '\n'));
  }

  /** A file that is written reads as its lines do. */
  lemma WrittenFileReads(format: Format, lines: Lines, trailing: bool)
    requires EndBlind(format) && AllWhole(format, lines)
    ensures Visible(format, FileLines(Finished(lines, trailing))) == Visible(format, lines)
  {
    hide Split, EndBlind, FileLines, Visible, Joined;
    var text := Joined(lines);
    FileIsSplit(format, Finished(lines, trailing));
    BlankIsInvisible(format);
    SplitClean("");
    if lines == [] {
      assert text == "" && Visible(format, lines) == [] by { NoLines(format); }
    } else {
      JoinedIsVisible(format, lines);
    }
    SplitConcat(text, "");
    AppendNothing(text + ['\n']);
    VisibleAppend(format, Split(text, '\n'), [""]);
    AppendNothing(Visible(format, lines));
  }

  // ---- lines that come back as they were written ------------------------------------------------

  /** No break in it, and none that a carriage return at its end could make. */
  predicate Plain(line: string) {
    Clean(line) && (line == "" || line[|line| - 1] != '\r')
  }

  /** A file with a visible last line holds exactly the lines that were written,
      and ends with a line break exactly if that was asked for. */
  lemma {:induction false} WrittenLinesAreExact(lines: Lines, trailing: bool)
    requires lines != [] && lines[|lines| - 1] != "" && forall line :: line in lines ==> Plain(line)
    ensures FileLines(Finished(lines, trailing)) == lines
    ensures EndsWithNewline(Finished(lines, trailing)) <==> trailing
  {
    hide Split, Joined, StripReturns, Normalized, Plain;
    var output := Finished(lines, trailing);
    JoinedSplits(lines);
    SplitConcat(Joined(lines), "");
    AppendNothing(Joined(lines) + ['\n']);
    SplitClean("");
    var parts := if trailing then lines + [""] else lines;
    assert Split(output, '\n') == parts;
    PlainIsNormal(output, parts) by { NothingIsPlain(); }
    assert (lines + [""])[..|lines|] == lines && lines == lines[..|lines| - 1] + [lines[|lines| - 1]];
    NothingStripped(lines);
    NothingStripped(lines[..|lines| - 1]);
  }

  lemma NothingIsPlain()
    ensures Plain("")
  {}

  lemma {:induction false} JoinedSplits(lines: Lines)
    requires lines != [] && lines[|lines| - 1] != "" && forall line :: line in lines ==> Plain(line)
    ensures Split(Joined(lines), '\n') == lines && Joined(lines) != "" && !EndsWithNewline(Joined(lines))
    decreases |lines|
  {
    hide Split;
    assert lines[0] in lines;
    if |lines| == 1 {
      SplitClean(lines[0]);
    } else {
      JoinedSplits(lines[1..]);
      SplitAt(lines[0], Joined(lines[1..]));
      assert lines == [lines[0]] + lines[1..];
    }
  }

  lemma {:induction false} PlainIsNormal(text: string, parts: Lines)
    requires parts == Split(text, '\n') && forall line :: line in parts ==> Plain(line)
    ensures Split(Normalized(text), '\n') == parts
  {
    hide Split, Normalized, Clean;
    NormalizedIsSimilar(text);
    var normal := Split(Normalized(text), '\n');
    forall i | 0 <= i < |parts| ensures normal[i] == parts[i] {
      assert Similar(normal[i], parts[i]) && Plain(parts[i]);
    }
  }

  lemma {:induction false} NothingStripped(lines: Lines)
    requires forall line :: line in lines ==> Plain(line)
    ensures StripReturns(lines) == lines
    decreases |lines|
  {
    hide Clean;
    if lines != [] {
      assert Plain(lines[0]);
      NothingStripped(lines[1..]);
    }
  }

  /** A line break at the end of a file is one at the end of its normal form. */
  lemma {:induction false} NormalizedEnd(text: string)
    ensures EndsWithNewline(Normalized(text)) <==> EndsWithNewline(text)
    decreases |text|
  {
    if |text| >= 2 && text[0] == '\r' && text[1] == '\n' {
      NormalizedEnd(text[2..]);
    } else if text != "" {
      NormalizedEnd(text[1..]);
      assert text[1..] != "" ==> Normalized(text[1..]) != "";
    }
  }

  lemma NoLines(format: Format)
    ensures Joined([]) == "" && Visible(format, []) == []
  {}

  lemma {:induction false} SplitIsClean(text: string)
    ensures AllClean(Split(text, '\n'))
    decreases |text|
  {
    var i := Position(text, c => c == '\n');
    if i < |text| { SplitIsClean(text[i + 1..]); }
  }

  lemma {:induction false} StrippedIsClean(parts: Lines)
    requires AllClean(parts)
    ensures AllClean(StripReturns(parts))
    decreases |parts|
  {
    if parts != [] { StrippedIsClean(parts[1..]); }
  }

  lemma FileLinesAreClean(text: string)
    ensures AllClean(FileLines(text))
  {
    hide Split, StripReturns, Normalized;
    var parts := Split(Normalized(text), '\n');
    SplitIsClean(Normalized(text));
    StrippedIsClean(parts[..|parts| - 1]);
  }

  /** Same visible items, same readings. */
  lemma SameVisibleReads(format: Format, a: Lines, b: Lines)
    requires Visible(format, a) == Visible(format, b)
    ensures Headers(format, a) == Headers(format, b)
    ensures forall name, key :: Reads(format, a, name, key) == Reads(format, b, name, key)
  {
    hide Values, Headers, ItemValues, ItemHeaders, Visible;
    forall name, key ensures Reads(format, a, name, key) == Reads(format, b, name, key) {
      ReadingIsVisible(format, "", a, name, key);
      ReadingIsVisible(format, "", b, name, key);
    }
    ReadingIsVisible(format, "", a, "", "");
    ReadingIsVisible(format, "", b, "", "");
  }

  // ---- texts with line breaks -------------------------------------------------------------------

  /** The part of a text in front of its first line break, and the rest with that break. */
  function FirstLine(text: string): string {
    text[..Position(text, c => c == '\n')]
  }

  function AfterFirstLine(text: string): string {
    text[Position(text, c => c == '\n')..]
  }

  /** Nothing but whitespace behind the first line break, if there is one. */
  predicate OneLine(text: string) {
    Blank(AfterFirstLine(text))
  }

  lemma {:induction false} BlankSplits(format: Format, text: string)
    requires EndBlind(format) && Blank(text)
    ensures Visible(format, Split(text, '\n')) == []
    decreases |text|
  {
    hide EndBlind, Blank, Visible;
    var i := Position(text, c => c == '\n');
    if i < |text| {
      BlankParts(text, i);
      BlankSplits(format, text[i + 1..]);
      VisibleAppend(format, [text[..i]], Split(text[i + 1..], '\n'));
      BlankLine(format, text[..i]);
    } else {
      BlankLine(format, text);
    }
  }

  lemma BlankParts(text: string, i: nat)
    requires Blank(text) && i < |text|
    ensures Blank(text[..i]) && Blank(text[i + 1..])
  {
    hide Whitespace;
  }

  lemma BlankLine(format: Format, line: string)
    requires EndBlind(format) && Blank(line)
    ensures Visible(format, [line]) == []
  {
    assert format(line) == Other;
    OneVisible(format, line);
  }

  lemma OneVisible(format: Format, line: string)
    ensures Visible(format, [line]) == VisibleItem(format, line)
  {
    assert [line][1..] == [];
  }

  /** What a line `key=text` with breaks in the text is split into. */
  lemma BrokenLine(key: string, text: string)
    requires Clean(key)
    ensures var first, rest := key + ['='] + FirstLine(text), AfterFirstLine(text);
      Split(key + ['='] + text, '\n') == if rest == "" then [first] else [first] + Split(rest[1..], '\n')
    ensures AfterFirstLine(text) != "" ==> AfterFirstLine(text)[0] == '\n'
    ensures text == FirstLine(text) + AfterFirstLine(text)
  {
    hide Split;
    var first, rest := key + ['='] + FirstLine(text), AfterFirstLine(text);
    if rest == "" {
      assert FirstLine(text) == text;
      SplitClean(first);
    } else {
      assert key + ['='] + text == first + ['\n'] + rest[1..];
      SplitAt(first, rest[1..]);
    }
  }
}
