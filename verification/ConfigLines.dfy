/** Line-based configuration files: what they say, and what rewriting or
    inserting lines does to that (src/runtime/docker/configuration/line.rs).

    The INI and the properties parser differ in how they read one line; the
    rest is common to both. */
module ConfigLines {
  import opened Json
  import opened Sequences

  type Lines = seq<string>

  /** How a parser reads one line; a value is trimmed. */
  datatype Item = Header(name: string) | Entry(key: string, value: string) | Other
  type Format = string -> Item

  /** What may stand between a key and its value. */
  predicate Delimiter(c: char) {
    c == '=' || c == ':'
  }

  datatype Wanted = Wanted(section: string, key: string, replacement: Value)

  // ---- reading ------------------------------------------------------------------------

  function NextSection(format: Format, section: string, line: string): string {
    match format(line)
    case Header(name) => name
    case _ => section
  }

  function OneHeader(format: Format, line: string): seq<string> {
    match format(line)
    case Header(name) => [name]
    case _ => []
  }

  function OneValue(format: Format, section: string, line: string, name: string, key: string): seq<string> {
    match format(line)
    case Entry(k, value) => if section == name && k == key then [value] else []
    case _ => []
  }

  /** The section that holds behind `lines` if `section` holds before them. */
  function SectionAfter(format: Format, section: string, lines: Lines): string
    decreases |lines|
  {
    if lines == [] then section else SectionAfter(format, NextSection(format, section, lines[0]), lines[1..])
  }

  /** The values of one key of one section, in order. */
  function Values(format: Format, section: string, lines: Lines, name: string, key: string): seq<string>
    decreases |lines|
  {
    if lines == [] then [] else
      OneValue(format, section, lines[0], name, key)
      + Values(format, NextSection(format, section, lines[0]), lines[1..], name, key)
  }

  function Headers(format: Format, lines: Lines): seq<string> {
    if lines == [] then [] else OneHeader(format, lines[0]) + Headers(format, lines[1..])
  }

  /** What a reader of the file sees of one key. */
  function Reads(format: Format, lines: Lines, name: string, key: string): seq<string> {
    Values(format, "", lines, name, key)
  }

  lemma {:induction false} ReadingAppend(format: Format, section: string, a: Lines, b: Lines, name: string, key: string)
    ensures Values(format, section, a + b, name, key)
      == Values(format, section, a, name, key) + Values(format, SectionAfter(format, section, a), b, name, key)
    ensures SectionAfter(format, section, a + b) == SectionAfter(format, SectionAfter(format, section, a), b)
    decreases |a|
  {
    hide OneValue, NextSection;
    if a == [] {
      assert a + b == b;
    } else {
      assert (a + b)[1..] == a[1..] + b;
      ReadingAppend(format, NextSection(format, section, a[0]), a[1..], b, name, key);
    }
  }

  lemma {:induction false} HeadersAppend(format: Format, a: Lines, b: Lines)
    ensures Headers(format, a + b) == Headers(format, a) + Headers(format, b)
    decreases |a|
  {
    hide OneHeader;
    if a == [] {
      assert a + b == b;
    } else {
      assert (a + b)[1..] == a[1..] + b;
      HeadersAppend(format, a[1..], b);
    }
  }

  // ---- rewriting -----------------------------------------------------------------------

  function NewLine(library: Library, wanted: Wanted, value: Value): string {
    wanted.key + ['='] + ScalarText(library, value)
  }

  function ReplacedLine(library: Library, wanted: Wanted, line: string, current: string): string {
    match ReplacementForCurrent(wanted.replacement, current)
    case Some(value) => NewLine(library, wanted, value)
    case None => line
  }

  /** The line in its place: replaced if it is an entry for the wanted key. */
  function RewrittenLine(format: Format, library: Library, section: string, line: string, wanted: Wanted): string {
    match format(line)
    case Entry(key, current) =>
      if section == wanted.section && key == wanted.key then ReplacedLine(library, wanted, line, current) else line
    case _ => line
  }

  function Rewritten(format: Format, library: Library, section: string, lines: Lines, wanted: Wanted): Lines
    decreases |lines|
  {
    if lines == [] then [] else
      [RewrittenLine(format, library, section, lines[0], wanted)]
      + Rewritten(format, library, NextSection(format, section, lines[0]), lines[1..], wanted)
  }

  /** What becomes of the values of the wanted key; `stored` is what the
      written text reads as. */
  function NewValue(library: Library, wanted: Wanted, stored: string -> string, current: string): string {
    match ReplacementForCurrent(wanted.replacement, current)
    case Some(value) => stored(ScalarText(library, value))
    case None => current
  }

  function NewValues(library: Library, wanted: Wanted, stored: string -> string, values: seq<string>): seq<string> {
    if values == [] then [] else [NewValue(library, wanted, stored, values[0])] + NewValues(library, wanted, stored, values[1..])
  }

  /** The values that a replacement can write. */
  predicate Writes(wanted: Wanted, value: Value) {
    if wanted.replacement.Object? then value in wanted.replacement.fields.Values else value == wanted.replacement
  }

  /** Each written line is read as an entry for the wanted key. */
  ghost predicate ReadsBack(format: Format, library: Library, wanted: Wanted, stored: string -> string) {
    forall value :: Writes(wanted, value) ==>
      format(NewLine(library, wanted, value)) == Entry(wanted.key, stored(ScalarText(library, value)))
  }

  lemma RewrittenLineReads(format: Format, library: Library, section: string, line: string, wanted: Wanted,
                           stored: string -> string, name: string, key: string)
    requires ReadsBack(format, library, wanted, stored)
    ensures var after := RewrittenLine(format, library, section, line, wanted);
      && NextSection(format, section, after) == NextSection(format, section, line)
      && OneHeader(format, after) == OneHeader(format, line)
      && OneValue(format, section, after, name, key) ==
        var before := OneValue(format, section, line, name, key);
        if name == wanted.section && key == wanted.key then NewValues(library, wanted, stored, before) else before
  {}

  lemma {:induction false} NewValuesAppend(library: Library, wanted: Wanted, stored: string -> string, a: seq<string>, b: seq<string>)
    ensures NewValues(library, wanted, stored, a + b) == NewValues(library, wanted, stored, a) + NewValues(library, wanted, stored, b)
    decreases |a|
  {
    if a == [] {
      assert a + b == b;
    } else {
      assert (a + b)[1..] == a[1..] + b;
      NewValuesAppend(library, wanted, stored, a[1..], b);
    }
  }

  /** Rewriting replaces the values of the wanted key where they stand; every
      other key and every header reads as before. */
  lemma {:induction false} RewritingReads(format: Format, library: Library, section: string, lines: Lines, wanted: Wanted,
                                          stored: string -> string, name: string, key: string)
    requires ReadsBack(format, library, wanted, stored)
    ensures var after := Rewritten(format, library, section, lines, wanted);
      && |after| == |lines|
      && Headers(format, after) == Headers(format, lines)
      && Values(format, section, after, name, key) ==
        var before := Values(format, section, lines, name, key);
        if name == wanted.section && key == wanted.key then NewValues(library, wanted, stored, before) else before
    decreases |lines|
  {
    hide ReadsBack, NewValue, RewrittenLine, NextSection, OneHeader, OneValue;
    if lines != [] {
      var next := NextSection(format, section, lines[0]);
      RewrittenLineReads(format, library, section, lines[0], wanted, stored, name, key);
      RewritingReads(format, library, next, lines[1..], wanted, stored, name, key);
      NewValuesAppend(library, wanted, stored, OneValue(format, section, lines[0], name, key), Values(format, next, lines[1..], name, key));
      var after := Rewritten(format, library, section, lines, wanted);
      assert after[1..] == Rewritten(format, library, next, lines[1..], wanted);
    }
  }

  // ---- inserting ----------------------------------------------------------------------------

  /** A new line in the wanted section adds one value to the wanted key. */
  lemma InsertingReads(format: Format, library: Library, before: Lines, behind: Lines, wanted: Wanted, value: Value,
                       stored: string -> string, name: string, key: string)
    requires format(NewLine(library, wanted, value)) == Entry(wanted.key, stored(ScalarText(library, value)))
    requires SectionAfter(format, "", before) == wanted.section
    ensures var line := NewLine(library, wanted, value);
      && Headers(format, before + [line] + behind) == Headers(format, before + behind)
      && Reads(format, before + [line] + behind, name, key) ==
        if name == wanted.section && key == wanted.key then
          Reads(format, before, name, key) + [stored(ScalarText(library, value))] + Values(format, wanted.section, behind, name, key)
        else Reads(format, before + behind, name, key)
  {
    hide NewLine, Values, SectionAfter, Headers;
    var line := NewLine(library, wanted, value);
    OneLineReads(format, line, wanted.section, name, key);
    ReadingAppend(format, "", before + [line], behind, name, key);
    ReadingAppend(format, "", before, [line], name, key);
    ReadingAppend(format, "", before, behind, name, key);
    HeadersAppend(format, before + [line], behind);
    HeadersAppend(format, before, [line]);
    HeadersAppend(format, before, behind);
    WithoutMiddle(Headers(format, before), Headers(format, behind));
    WithoutMiddle(Values(format, "", before, name, key), Values(format, wanted.section, behind, name, key));
  }

  lemma OneLineReads(format: Format, line: string, section: string, name: string, key: string)
    requires format(line).Entry?
    ensures Values(format, section, [line], name, key)
      == if name == section && key == format(line).key then [format(line).value] else []
    ensures SectionAfter(format, section, [line]) == section && Headers(format, [line]) == []
  {}

  // ---- one and many replacements ----------------------------------------------------------------

  /** What the wanted key reads after one replacement: new values where it
      stood, or one new value if it did not occur and the replacement is plain. */
  function Settled(library: Library, wanted: Wanted, stored: string -> string, values: seq<string>): seq<string> {
    if values == [] && !wanted.replacement.Object? then [stored(ScalarText(library, wanted.replacement))]
    else NewValues(library, wanted, stored, values)
  }

  /** Value by value: a plain replacement takes every place, an object decides by
      the value that stands there and leaves those it does not list. */
  lemma SettledMeaning(library: Library, wanted: Wanted, stored: string -> string, values: seq<string>)
    ensures var after, replacement := Settled(library, wanted, stored, values), wanted.replacement;
      if replacement.Object? then
        && |after| == |values|
        && (forall i :: 0 <= i < |values| && values[i] in replacement.fields ==>
             after[i] == stored(ScalarText(library, replacement.fields[values[i]])))
        && (forall i :: 0 <= i < |values| && values[i] !in replacement.fields ==> after[i] == values[i])
      else
        && |after| == (if values == [] then 1 else |values|)
        && forall i :: 0 <= i < |after| ==>
          && after[i] == stored(ScalarText(library, replacement))
          && (replacement.Text? ==> after[i] == stored(replacement.text))
          && (replacement == Bool(true) ==> after[i] == stored("true"))
          && (replacement == Bool(false) ==> after[i] == stored("false"))
          && (replacement == Null ==> after[i] == stored(""))
  {
    NewValuesAt(library, wanted, stored, values);
  }

  lemma {:induction false} NewValuesAt(library: Library, wanted: Wanted, stored: string -> string, values: seq<string>)
    ensures |NewValues(library, wanted, stored, values)| == |values|
    ensures forall i :: 0 <= i < |values| ==>
      NewValues(library, wanted, stored, values)[i] == NewValue(library, wanted, stored, values[i])
    decreases |values|
  {
    hide NewValue;
    if values != [] {
      NewValuesAt(library, wanted, stored, values[1..]);
      assert forall i :: 0 < i < |values| ==> values[i] == values[1..][i - 1];
    }
  }

  /** The effect of one replacement on everything that can be read. */
  ghost predicate Replaces(format: Format, library: Library, wanted: Wanted, stored: string -> string, before: Lines, after: Lines) {
    && Headers(format, before) <= Headers(format, after)
    && (forall name, key :: Reads(format, after, name, key) == (
          if name == wanted.section && key == wanted.key then Settled(library, wanted, stored, Reads(format, before, name, key))
          else Reads(format, before, name, key)))
  }

  /** The lines before the first replacement, then after each one. */
  ghost predicate Stages(format: Format, library: Library, find: seq<Wanted>, stored: string -> string, stages: seq<Lines>) {
    && |stages| == |find| + 1
    && forall k :: 0 <= k < |find| ==> Replaces(format, library, find[k], stored, stages[k], stages[k + 1])
  }

  predicate Distinct(find: seq<Wanted>) {
    forall i, j :: 0 <= i < j < |find| ==> find[i].section != find[j].section || find[i].key != find[j].key
  }

  /** The effect of a whole run: each wanted key is replaced, all others keep
      their values, and the headers that were there stay in order. */
  ghost predicate ReplacesAll(format: Format, library: Library, find: seq<Wanted>, stored: string -> string, before: Lines, after: Lines) {
    && Headers(format, before) <= Headers(format, after)
    && (forall k :: 0 <= k < |find| ==>
         Reads(format, after, find[k].section, find[k].key)
           == Settled(library, find[k], stored, Reads(format, before, find[k].section, find[k].key)))
    && (forall name, key :: (forall k :: 0 <= k < |find| ==> find[k].section != name || find[k].key != key) ==>
         Reads(format, after, name, key) == Reads(format, before, name, key))
  }

  lemma {:induction false} StagesReplaceAll(format: Format, library: Library, find: seq<Wanted>, stored: string -> string, stages: seq<Lines>)
    requires Stages(format, library, find, stored, stages) && Distinct(find)
    ensures ReplacesAll(format, library, find, stored, stages[0], stages[|find|])
    decreases |find|
  {
    hide Reads, Settled;
    if find != [] {
      var last := |find| - 1;
      StagesReplaceAll(format, library, find[..last], stored, stages[..|find|]);
      var before, between, after := stages[0], stages[last], stages[|find|];
      assert Replaces(format, library, find[last], stored, between, after);
      forall k | 0 <= k < |find|
        ensures Reads(format, after, find[k].section, find[k].key)
          == Settled(library, find[k], stored, Reads(format, before, find[k].section, find[k].key))
      {
        if k < last {
          assert find[..last][k] == find[k];
        } else {
          assert forall i :: 0 <= i < last ==> find[..last][i] == find[i];
        }
      }
      forall name, key | forall k :: 0 <= k < |find| ==> find[k].section != name || find[k].key != key
        ensures Reads(format, after, name, key) == Reads(format, before, name, key)
      {
        assert find[last].section != name || find[last].key != key;
        assert forall k :: 0 <= k < last ==> find[..last][k] == find[k];
      }
    }
  }

  // ---- lines that are left alone ------------------------------------------------------------------

  predicate IsWanted(find: seq<Wanted>, section: string, key: string) {
    exists k :: 0 <= k < |find| && find[k].section == section && find[k].key == key
  }

  /** A line that is no entry for a wanted key, as it is written; empty lines aside. */
  function UntouchedLine(format: Format, section: string, line: string, find: seq<Wanted>): Lines {
    if line == "" || (format(line).Entry? && IsWanted(find, section, format(line).key)) then [] else [line]
  }

  /** Comments, headers, foreign entries and whatever else is not asked for. */
  function Untouched(format: Format, section: string, lines: Lines, find: seq<Wanted>): Lines
    decreases |lines|
  {
    if lines == [] then [] else
      UntouchedLine(format, section, lines[0], find) + Untouched(format, NextSection(format, section, lines[0]), lines[1..], find)
  }

  lemma {:induction false} UntouchedAppend(format: Format, section: string, a: Lines, b: Lines, find: seq<Wanted>)
    ensures Untouched(format, section, a + b, find)
      == Untouched(format, section, a, find) + Untouched(format, SectionAfter(format, section, a), b, find)
    decreases |a|
  {
    hide UntouchedLine, NextSection;
    if a == [] {
      assert a + b == b;
    } else {
      var next := NextSection(format, section, a[0]);
      assert (a + b)[1..] == a[1..] + b;
      UntouchedAppend(format, next, a[1..], b, find);
      Regroup(UntouchedLine(format, section, a[0], find), Untouched(format, next, a[1..], find),
              Untouched(format, SectionAfter(format, section, a), b, find));
    }
  }

  /** Rewriting for a wanted key leaves all of them as they are written. */
  lemma {:induction false} RewritingLeavesLines(format: Format, library: Library, section: string, lines: Lines, wanted: Wanted,
                                                stored: string -> string, find: seq<Wanted>)
    requires ReadsBack(format, library, wanted, stored) && IsWanted(find, wanted.section, wanted.key)
    ensures Untouched(format, section, Rewritten(format, library, section, lines, wanted), find)
      == Untouched(format, section, lines, find)
    decreases |lines|
  {
    hide IsWanted, RewrittenLine, ReadsBack, UntouchedLine, NextSection;
    if lines != [] {
      var next := NextSection(format, section, lines[0]);
      RewritingLeavesLine(format, library, section, lines[0], wanted, stored, find);
      RewritingLeavesLines(format, library, next, lines[1..], wanted, stored, find);
      var after := Rewritten(format, library, section, lines, wanted);
      assert after[1..] == Rewritten(format, library, next, lines[1..], wanted);
    }
  }

  lemma RewritingLeavesLine(format: Format, library: Library, section: string, line: string, wanted: Wanted,
                            stored: string -> string, find: seq<Wanted>)
    requires ReadsBack(format, library, wanted, stored) && IsWanted(find, wanted.section, wanted.key)
    ensures var after := RewrittenLine(format, library, section, line, wanted);
      && NextSection(format, section, after) == NextSection(format, section, line)
      && UntouchedLine(format, section, after, find) == UntouchedLine(format, section, line, find)
  {
    hide IsWanted;
  }

  /** An inserted line for a wanted key leaves them as they are, too. */
  lemma InsertingLeavesLines(format: Format, before: Lines, line: string, behind: Lines, find: seq<Wanted>)
    requires format(line).Entry? && IsWanted(find, SectionAfter(format, "", before), format(line).key)
    ensures Untouched(format, "", before + [line] + behind, find) == Untouched(format, "", before + behind, find)
  {
    hide IsWanted, SectionAfter, Untouched;
    var section := SectionAfter(format, "", before);
    OneLineLeft(format, section, line, find);
    UntouchedAppend(format, "", before + [line], behind, find);
    UntouchedAppend(format, "", before, [line], find);
    UntouchedAppend(format, "", before, behind, find);
    ReadingAppend(format, "", before, [line], "", "");
    WithoutMiddle(Untouched(format, "", before, find), Untouched(format, section, behind, find));
  }

  lemma OneLineLeft(format: Format, section: string, line: string, find: seq<Wanted>)
    ensures Untouched(format, section, [line], find) == UntouchedLine(format, section, line, find)
    ensures format(line).Entry? ==> SectionAfter(format, section, [line]) == section
  {
    assert [line][1..] == [];
    AppendNothing(UntouchedLine(format, section, line, find));
  }

  // ---- a second run -----------------------------------------------------------------------------

  lemma {:induction false} NewValuesTwice(library: Library, wanted: Wanted, stored: string -> string, values: seq<string>)
    requires !wanted.replacement.Object?
    ensures |NewValues(library, wanted, stored, values)| == |values|
    ensures NewValues(library, wanted, stored, NewValues(library, wanted, stored, values)) == NewValues(library, wanted, stored, values)
    decreases |values|
  {
    if values != [] { NewValuesTwice(library, wanted, stored, values[1..]); }
  }

  /** For plain replacements a second run changes nothing that can be read. */
  lemma SecondRunChangesNoReading(format: Format, library: Library, find: seq<Wanted>, stored: string -> string,
                                  before: Lines, after: Lines, again: Lines)
    requires ReplacesAll(format, library, find, stored, before, after)
    requires ReplacesAll(format, library, find, stored, after, again)
    requires forall k :: 0 <= k < |find| ==> !find[k].replacement.Object?
    ensures forall name, key :: Reads(format, again, name, key) == Reads(format, after, name, key)
  {
    hide Reads;
    forall name, key ensures Reads(format, again, name, key) == Reads(format, after, name, key) {
      if k :| 0 <= k < |find| && find[k].section == name && find[k].key == key {
        SettledTwice(library, find[k], stored, Reads(format, before, name, key));
      }
    }
  }

  lemma SettledTwice(library: Library, wanted: Wanted, stored: string -> string, values: seq<string>)
    requires !wanted.replacement.Object?
    ensures Settled(library, wanted, stored, Settled(library, wanted, stored, values)) == Settled(library, wanted, stored, values)
    ensures Settled(library, wanted, stored, values) != []
  {
    NewValuesTwice(library, wanted, stored, values);
    var written := stored(ScalarText(library, wanted.replacement));
    assert [written][1..] == [];
    assert NewValues(library, wanted, stored, [written]) == [written];
  }
}
