/** The properties parser (src/runtime/docker/configuration/line.rs:28-87),
    on the lines of a file. */
module PropertiesConfig {
  import opened Sequences
  import opened Wrappers
  import opened Text
  import opened Json
  import opened ConfigLines

  /** What ends a key and may stand between it and its value. */
  predicate Separator(c: char) {
    Delimiter(c) || Whitespace(c)
  }

  function SeparatorRun(s: string): (n: nat)
    ensures n <= |s|
  {
    if s == "" || !Separator(s[0]) then 0 else SeparatorRun(s[1..]) + 1
  }

  function SkipSeparators(s: string): string {
    s[SeparatorRun(s)..]
  }

  /** `properties_key`: the key of a line and where its value starts. */
  function PropertiesKey(line: string): (r: Option<(string, nat)>)
    ensures r.Some? ==> r.value.1 <= |line|
  {
    var trimmed := TrimStart(line);
    if trimmed == "" || trimmed[0] == '#' || trimmed[0] == '!' then None else
      TrimStartLength(line);
      var leading := |line| - |trimmed|;
      var index := Position(trimmed, Separator);
      if index == |trimmed| then Some((trimmed, |line|))
      else
        Some((trimmed[..index], ValueStart(line, leading + index)))
  }

  /** Behind the separators at that position. */
  function ValueStart(line: string, at: nat): (i: nat)
    requires at <= |line|
    ensures i <= |line|
  {
    at + SeparatorRun(line[at..])
  }

  lemma TrimStartLength(s: string)
    ensures |TrimStart(s)| <= |s|
  {
  }

  function PropertiesItem(line: string): Item {
    match PropertiesKey(line)
    case Some(pair) => Entry(pair.0, Trim(line[pair.1..]))
    case None => Other
  }

  function PropertiesStep(library: Library, lines: Lines, wanted: Wanted): Lines {
    var rewritten := Rewritten(PropertiesItem, library, "", lines, wanted);
    if Reads(PropertiesItem, lines, "", wanted.key) != [] || wanted.replacement.Object? then rewritten
    else rewritten + [NewLine(library, wanted, wanted.replacement)]
  }

  /** One entry of the loop over the wanted keys. */
  method ReplaceProperties(library: Library, before: Lines, key: string, replacement: Value) returns (lines: Lines)
    ensures lines == PropertiesStep(library, before, Wanted("", key, replacement))
  {
    hide PropertiesItem, Rewritten, Values;
    var wanted := Wanted("", key, replacement);
    var replaced;
    lines, replaced := RewriteProperties(library, before, wanted);
    if !replaced && !replacement.Object? {
      lines := lines + [wanted.key + ['='] + ScalarText(library, replacement)];
    }
  }

  /** The loop over the lines. */
  method RewriteProperties(library: Library, before: Lines, wanted: Wanted) returns (lines: Lines, replaced: bool)
    requires wanted.section == ""
    ensures lines == Rewritten(PropertiesItem, library, "", before, wanted)
    ensures replaced <==> Reads(PropertiesItem, before, "", wanted.key) != []
  {
    hide PropertiesItem, RewrittenLine, OneValue, NextSection;
    replaced := false;
    lines := before;
    var i := 0;
    while i < |lines|
      invariant i <= |lines| == |before|
      invariant lines[i..] == before[i..]
      invariant Rewritten(PropertiesItem, library, "", before, wanted)
        == lines[..i] + Rewritten(PropertiesItem, library, "", before[i..], wanted)
      invariant Reads(PropertiesItem, before, "", wanted.key) != []
        <==> replaced || Values(PropertiesItem, "", before[i..], "", wanted.key) != []
    {
      var line := lines[i];
      assert before[i..][0] == line && before[i..][1..] == before[i + 1..];
      ghost var done := lines[..i];
      var changed, matched := PropertiesLine(library, line, wanted);
      lines := lines[i := changed];
      replaced := replaced || matched;
      i := i + 1;
      assert lines[..i] == done + [changed];
    }
    assert before[i..] == [] && lines[..i] == lines;
  }

  /** The body of the loop over the lines. */
  method PropertiesLine(library: Library, line: string, wanted: Wanted) returns (changed: string, matched: bool)
    requires wanted.section == ""
    ensures changed == RewrittenLine(PropertiesItem, library, "", line, wanted)
    ensures NextSection(PropertiesItem, "", line) == ""
    ensures matched <==> OneValue(PropertiesItem, "", line, "", wanted.key) != []
  {
    hide PropertiesKey;
    changed, matched := line, false;
    var found := PropertiesKey(line);
    if found.None? || found.value.0 != wanted.key { return; }
    var current := Trim(line[found.value.1..]);
    var value := ReplacementForCurrent(wanted.replacement, current);
    if value.Some? {
      changed := wanted.key + ['='] + ScalarText(library, value.value);
    }
    matched := true;
  }

  datatype Find = Find(key: string, replacement: Value)

  function AllWanted(find: seq<Find>): (r: seq<Wanted>)
    ensures |r| == |find|
  {
    seq(|find|, i requires 0 <= i < |find| => Wanted("", find[i].key, find[i].replacement))
  }

  function PropertiesRun(library: Library, lines: Lines, find: seq<Wanted>): Lines
    decreases |find|
  {
    if find == [] then lines else
      var last := |find| - 1;
      PropertiesStep(library, PropertiesRun(library, lines, find[..last]), find[last])
  }

  /** The loop of `apply_properties_parser` over the wanted keys. */
  method ApplyProperties(library: Library, lines: Lines, find: seq<Find>) returns (after: Lines)
    ensures after == PropertiesRun(library, lines, AllWanted(find))
  {
    hide PropertiesStep;
    var wanted := AllWanted(find);
    after := lines;
    for k := 0 to |find|
      invariant after == PropertiesRun(library, lines, wanted[..k])
    {
      after := ReplaceProperties(library, after, find[k].key, find[k].replacement);
      assert wanted[..k + 1][..k] == wanted[..k];
    }
    assert wanted[..|find|] == wanted;
  }

  // ---- what a run does ---------------------------------------------------------------------

  /** A key the notation can express. */
  predicate PropertiesKeyOk(key: string) {
    && (forall i :: 0 <= i < |key| ==> !Separator(key[i]))
    && (key != "" ==> key[0] != '#' && key[0] != '!')
  }

  /** What a written text reads as: separators in front of it are lost. */
  function Stored(text: string): string {
    Trim(SkipSeparators(text))
  }

  lemma {:induction false} PropertiesLineReads(key: string, text: string)
    requires PropertiesKeyOk(key)
    ensures PropertiesItem(key + ['='] + text) == Entry(key, Stored(text))
  {
    hide Whitespace, Trim, PropertiesKey, SeparatorRun, Position;
    var behind := ['='] + text;
    Regroup(key, ['='], text);
    WrittenKey(key, text);
    EqualsIsSkipped(text);
    hide PropertiesKeyOk;
    assert (key + behind)[|key| + SeparatorRun(behind)..] == text[SeparatorRun(text)..];
  }

  lemma {:induction false} WrittenKey(key: string, text: string)
    requires PropertiesKeyOk(key)
    ensures PropertiesKey(key + (['='] + text)) == Some((key, |key| + SeparatorRun(['='] + text)))
  {
    hide Whitespace, PropertiesKey, SeparatorRun, Position;
    var behind := ['='] + text;
    Regroup(key, ['='], text);
    KeyEnds(key, text);
    EqualsIsVisible();
    assert (key + behind)[0] == if key == "" then '=' else key[0];
    KeyOfTrimmed(key + behind, key, behind);
    assert (key + behind)[|key|..] == behind;
  }

  lemma {:induction false} EqualsIsSkipped(text: string)
    ensures SeparatorRun(['='] + text) == SeparatorRun(text) + 1
  {
    assert (['='] + text)[1..] == text;
  }

  lemma {:induction false} KeyInFront(key: string, behind: string, a: string)
    requires Blank(a) && behind != "" && Position(key + behind, Separator) == |key|
    requires var first := (key + behind)[0]; first != '#' && first != '!' && !Whitespace(first)
    ensures PropertiesKey(a + (key + behind)) == Some((key, |a| + |key| + SeparatorRun(behind)))
  {
    hide Whitespace, Blank, SeparatorRun, Position, PropertiesKey, Separator;
    var core := key + behind;
    TrimStartOfPadded(a, core);
    assert TrimStart(core) == core;
    hide TrimStart;
    KeyOfTrimmed(a + core, key, behind);
    assert (a + core)[|a| + |key|..] == behind;
  }

  lemma {:induction false} KeyOfTrimmed(line: string, key: string, behind: string)
    requires TrimStart(line) == key + behind && |key| + |behind| <= |line|
    requires behind != "" && Position(key + behind, Separator) == |key|
    requires (key + behind)[0] != '#' && (key + behind)[0] != '!'
    ensures PropertiesKey(line) == Some((key, ValueStart(line, |line| - |behind|)))
  {
    hide Whitespace, SeparatorRun, Position, Separator, TrimStart, ValueStart;
    var trimmed := key + behind;
    assert trimmed[..|key|] == key;
    assert |line| - |trimmed| + |key| == |line| - |behind|;
  }

  /** Those are all the keys that every text can be written for. */
  lemma PropertiesKeyIsExact(key: string)
    ensures (forall text :: PropertiesItem(key + ['='] + text) == Entry(key, Stored(text))) <==> PropertiesKeyOk(key)
  {
    if PropertiesKeyOk(key) {
      forall text ensures PropertiesItem(key + ['='] + text) == Entry(key, Stored(text)) { PropertiesLineReads(key, text); }
    } else {
      BadPropertiesKey(key, "");
    }
  }

  lemma BadPropertiesKey(key: string, text: string)
    requires !PropertiesKeyOk(key)
    ensures PropertiesItem(key + ['='] + text) != Entry(key, Stored(text))
  {}

  lemma KeyEnds(key: string, text: string)
    requires forall i :: 0 <= i < |key| ==> !Separator(key[i])
    ensures Position(key + ['='] + text, Separator) == |key|
  {
    hide Whitespace;
    var line := key + ['='] + text;
    assert forall i :: 0 <= i < |key| ==> line[i] == key[i];
    assert line[|key|] == '=';
  }

  /** A value is read back as written exactly if it does not begin with a delimiter. */
  lemma StoredIffNoDelimiter(text: string)
    ensures Stored(text) == Trim(text) <==> Trim(text) == "" || !Delimiter(Trim(text)[0])
  {
    hide Whitespace, Blank, TrimStart, TrimEnd, Trim, SkipSeparators, Delimiter;
    var left, right := TrimParts(text);
    var value := Trim(text);
    assert left + (value + right) == left + value + right == text;
    SkipBlank(left, value + right);
    StoredValue(value, right);
  }

  lemma StoredValue(value: string, right: string)
    requires Trimmed(value) && Blank(right)
    ensures Trim(SkipSeparators(value + right)) == value <==> value == "" || !Delimiter(value[0])
  {
    hide Whitespace, Blank, TrimStart, TrimEnd, Trim, SkipSeparators;
    TrimIsTrimmed(value);
    if value == "" {
      SkipBlank(right, "");
      assert value + right == right + "";
      NothingToSkip();
    } else if !Delimiter(value[0]) {
      assert (value + right)[0] == value[0];
      VisibleStops(value + right);
      NothingToSkip();
      TrimIgnoresPadding("", value, right);
      assert "" + value + right == value + right;
    } else {
      Shortened(value, right);
    }
  }

  lemma NothingToSkip()
    ensures SkipSeparators("") == "" && Blank("")
  {
  }

  lemma {:induction false} SkipBlank(left: string, s: string)
    requires Blank(left)
    ensures SkipSeparators(left + s) == SkipSeparators(s)
    decreases |left|
  {
    hide Whitespace;
    if left == "" {
      assert left + s == s;
    } else {
      assert Whitespace(left[0]);
      assert (left + s)[1..] == left[1..] + s;
      SkipBlank(left[1..], s);
    }
  }

  lemma VisibleStops(s: string)
    requires s != "" && !Separator(s[0])
    ensures SkipSeparators(s) == s
  {
  }

  lemma Shortened(value: string, right: string)
    requires value != "" && Delimiter(value[0]) && Trimmed(value) && Blank(right)
    ensures |Trim(SkipSeparators(value + right))| < |value|
  {
    hide Whitespace, TrimStart, TrimEnd, Trim;
    var s := value + right;
    var n := SeparatorRun(s);
    assert n > 0;
    if n <= |value| {
      var rest := value[n..];
      assert s[n..] == "" + rest + right;
      TrimIgnoresPadding("", rest, right);
      var l, r := TrimParts(rest);
    } else {
      assert s[n..] == right[n - |value|..];
      TailIsBlank(right, n - |value|);
      TrimOfPadded(s[n..], "", "");
      assert s[n..] + "" + "" == s[n..];
    }
  }

  lemma TailIsBlank(right: string, i: nat)
    requires Blank(right) && i <= |right|
    ensures Blank(right[i..])
  {
  }

  lemma PropertiesReadsBack(library: Library, wanted: Wanted)
    requires PropertiesKeyOk(wanted.key)
    ensures ReadsBack(PropertiesItem, library, wanted, Stored)
  {
    hide PropertiesItem, Stored;
    forall value | Writes(wanted, value)
      ensures PropertiesItem(NewLine(library, wanted, value)) == Entry(wanted.key, Stored(ScalarText(library, value)))
    {
      PropertiesLineReads(wanted.key, ScalarText(library, value));
    }
  }

  lemma {:induction false} NoSections(section: string, lines: Lines)
    ensures SectionAfter(PropertiesItem, section, lines) == section && Headers(PropertiesItem, lines) == []
    decreases |lines|
  {
    hide PropertiesKey;
    if lines != [] { NoSections(section, lines[1..]); }
  }

  lemma PropertiesStepReplaces(library: Library, lines: Lines, wanted: Wanted)
    requires PropertiesKeyOk(wanted.key) && wanted.section == ""
    ensures Replaces(PropertiesItem, library, wanted, Stored, lines, PropertiesStep(library, lines, wanted))
  {
    hide PropertiesItem, Stored, Values, Headers, Rewritten, ReadsBack, NewLine;
    var after := PropertiesStep(library, lines, wanted);
    NoSections("", lines);
    NoSections("", after);
    forall name, key
      ensures Reads(PropertiesItem, after, name, key) == (
        if name == wanted.section && key == wanted.key then Settled(library, wanted, Stored, Reads(PropertiesItem, lines, name, key))
        else Reads(PropertiesItem, lines, name, key))
    {
      PropertiesStepReads(library, lines, wanted, name, key);
    }
  }

  lemma PropertiesStepReads(library: Library, lines: Lines, wanted: Wanted, name: string, key: string)
    requires PropertiesKeyOk(wanted.key) && wanted.section == ""
    ensures Reads(PropertiesItem, PropertiesStep(library, lines, wanted), name, key) ==
      if name == wanted.section && key == wanted.key then Settled(library, wanted, Stored, Reads(PropertiesItem, lines, name, key))
      else Reads(PropertiesItem, lines, name, key)
  {
    hide PropertiesItem, Stored, Values, Headers, Rewritten, ReadsBack, SectionAfter;
    PropertiesReadsBack(library, wanted);
    RewritingReads(PropertiesItem, library, "", lines, wanted, Stored, name, key);
    RewritingReads(PropertiesItem, library, "", lines, wanted, Stored, "", wanted.key);
    if Reads(PropertiesItem, lines, "", wanted.key) == [] && !wanted.replacement.Object? {
      var rewritten := Rewritten(PropertiesItem, library, "", lines, wanted);
      var line := NewLine(library, wanted, wanted.replacement);
      PropertiesLineReads(wanted.key, ScalarText(library, wanted.replacement));
      NoSections("", rewritten);
      ReadingAppend(PropertiesItem, "", rewritten, [line], name, key);
      OneLineReads(PropertiesItem, line, "", name, key);
    }
  }

  /** A properties run is a functional update of what can be read. */
  lemma {:induction false} PropertiesIsFunctionalUpdate(library: Library, lines: Lines, find: seq<Wanted>)
    requires Distinct(find) && forall k :: 0 <= k < |find| ==> find[k].section == "" && PropertiesKeyOk(find[k].key)
    ensures ReplacesAll(PropertiesItem, library, find, Stored, lines, PropertiesRun(library, lines, find))
  {
    hide PropertiesStep, Replaces;
    var stages := seq(|find| + 1, k requires 0 <= k <= |find| => PropertiesRun(library, lines, find[..k]));
    forall k | 0 <= k < |find| ensures Replaces(PropertiesItem, library, find[k], Stored, stages[k], stages[k + 1]) {
      assert find[..k + 1][..k] == find[..k];
      PropertiesStepReplaces(library, stages[k], find[k]);
    }
    assert find[..|find|] == find;
    StagesReplaceAll(PropertiesItem, library, find, Stored, stages);
  }

  /** Comments, foreign entries and all else that is not asked for stay as they are written, and in order. */
  lemma {:induction false} PropertiesKeepsLines(library: Library, lines: Lines, find: seq<Wanted>, all: seq<Wanted>)
    requires forall k :: 0 <= k < |find| ==> find[k].section == "" && PropertiesKeyOk(find[k].key) && IsWanted(all, "", find[k].key)
    ensures Untouched(PropertiesItem, "", PropertiesRun(library, lines, find), all) == Untouched(PropertiesItem, "", lines, all)
    decreases |find|
  {
    hide PropertiesStep, Untouched, IsWanted, PropertiesKeyOk, PropertiesItem;
    if find != [] {
      var last := |find| - 1;
      PropertiesKeepsLines(library, lines, find[..last], all);
      PropertiesStepKeepsLines(library, PropertiesRun(library, lines, find[..last]), find[last], all);
    }
  }

  lemma PropertiesStepKeepsLines(library: Library, lines: Lines, wanted: Wanted, all: seq<Wanted>)
    requires wanted.section == "" && PropertiesKeyOk(wanted.key) && IsWanted(all, "", wanted.key)
    ensures Untouched(PropertiesItem, "", PropertiesStep(library, lines, wanted), all) == Untouched(PropertiesItem, "", lines, all)
  {
    hide PropertiesItem, Stored, Untouched, IsWanted, Rewritten, ReadsBack, NewLine, Reads, SectionAfter;
    var rewritten, line := Rewritten(PropertiesItem, library, "", lines, wanted), NewLine(library, wanted, wanted.replacement);
    PropertiesReadsBack(library, wanted);
    RewritingLeavesLines(PropertiesItem, library, "", lines, wanted, Stored, all);
    if !wanted.replacement.Object? {
      NoSections("", rewritten);
      assert line == wanted.key + ['='] + ScalarText(library, wanted.replacement) by { Written(library, wanted); }
      PropertiesLineReads(wanted.key, ScalarText(library, wanted.replacement));
      InsertingLeavesLines(PropertiesItem, rewritten, line, [], all);
      assert rewritten + [line] + [] == rewritten + [line] && rewritten + [] == rewritten;
    }
  }

  lemma Written(library: Library, wanted: Wanted)
    ensures NewLine(library, wanted, wanted.replacement) == wanted.key + ['='] + ScalarText(library, wanted.replacement)
  {}

  // ---- how a line may be written --------------------------------------------------------------

  /** A key ends at the first of `=`, `:` and whitespace, and any number of these may follow it. */
  lemma {:induction false} EntryIsRead(key: string, separators: string, value: string, a: string, d: string)
    requires Blank(a) && Blank(d) && Trimmed(value) && separators != ""
    requires forall c :: c in separators ==> c == '=' || c == ':' || Whitespace(c)
    requires forall c :: c in key ==> c != '=' && c != ':' && !Whitespace(c)
    requires key != "" && key[0] != '#' && key[0] != '!' && (value == "" || (value[0] != '=' && value[0] != ':'))
    ensures PropertiesItem(a + (key + separators + value + d)) == Entry(key, value)
  {
    assert separators[0] in separators && key[0] in key;
    assert Separator(separators[0]) && !Separator(key[0]);
    hide Whitespace, Blank, Trimmed, TrimEnd, Trim, PropertiesItem;
    var core, behind := key + separators + value + d, separators + (value + d);
    Regroup(key + separators, value, d);
    Regroup(key, separators, value + d);
    assert core == key + behind;
    ValueBehind(separators, value, d);
    KeyEndsAt(key, behind);
    EntryBehind(key, behind, value, a);
  }

  lemma {:induction false} EntryBehind(key: string, behind: string, value: string, a: string)
    requires Blank(a) && key != "" && key[0] != '#' && key[0] != '!' && !Whitespace(key[0]) && behind != ""
    requires Position(key + behind, Separator) == |key| && Trim(behind[SeparatorRun(behind)..]) == value
    ensures PropertiesItem(a + (key + behind)) == Entry(key, value)
  {
    hide Whitespace, Blank, Trim, SeparatorRun, Position, PropertiesKey, Separator;
    var line, n := a + (key + behind), SeparatorRun(behind);
    KeyInFront(key, behind, a);
    assert line[|a| + |key| + n..] == behind[n..];
  }

  lemma {:induction false} ValueBehind(separators: string, value: string, d: string)
    requires Blank(d) && Trimmed(value) && forall c :: c in separators ==> Separator(c)
    requires value == "" || (value[0] != '=' && value[0] != ':')
    ensures var behind := separators + (value + d); Trim(behind[SeparatorRun(behind)..]) == value
  {
    hide Whitespace, TrimEnd, TrimStart, Trim, SeparatorRun;
    var behind := separators + (value + d);
    SkipAll(separators, value + d);
    if value == "" {
      SkipAll(d, "");
      assert value + d == d + "";
      NoSeparators();
      assert behind[|behind|..] == "";
      TrimIsTrimmed("");
    } else {
      assert (value + d)[0] == value[0];
      StopsAt(value + d);
      assert behind[|separators|..] == "" + value + d;
      TrimOfPadded("", value, d);
    }
  }

  lemma NoSeparators()
    ensures SeparatorRun("") == 0
  {}

  lemma StopsAt(s: string)
    requires s != "" && !Separator(s[0])
    ensures SeparatorRun(s) == 0
  {}

  lemma {:induction false} SkipAll(left: string, s: string)
    requires forall c :: c in left ==> Separator(c)
    ensures SeparatorRun(left + s) == |left| + SeparatorRun(s)
    decreases |left|
  {
    hide Separator;
    if left == "" {
      assert left + s == s;
    } else {
      assert (left + s)[1..] == left[1..] + s && left[0] in left;
      SkipAll(left[1..], s);
    }
  }

  lemma KeyEndsAt(key: string, behind: string)
    requires (forall c :: c in key ==> !Separator(c)) && (behind == "" || Separator(behind[0]))
    ensures Position(key + behind, Separator) == |key|
  {
    hide Separator;
    assert forall i :: 0 <= i < |key| ==> (key + behind)[i] == key[i] && key[i] in key;
    assert behind != "" ==> (key + behind)[|key|] == behind[0];
  }

  /** A line without one of them is a key with an empty value. */
  lemma {:induction false} BareKeyIsRead(key: string, a: string)
    requires Blank(a) && (forall c :: c in key ==> c != '=' && c != ':' && !Whitespace(c))
    requires key != "" && key[0] != '#' && key[0] != '!'
    ensures PropertiesItem(a + key) == Entry(key, "")
  {
    hide Whitespace, TrimEnd, Trim;
    TrimStartOfPadded(a, key);
    KeyEndsAt(key, "");
    assert key + "" == key && (a + key)[|a + key|..] == "";
    TrimIsTrimmed("");
  }

  /** Comments begin with `#` or `!`. */
  lemma CommentIsOther(text: string, a: string)
    requires Blank(a) && text != "" && (text[0] == '#' || text[0] == '!')
    ensures PropertiesItem(a + text) == Other
  {
    assert !Whitespace(text[0]);
    hide Whitespace;
    TrimStartOfPadded(a, text);
  }
}
