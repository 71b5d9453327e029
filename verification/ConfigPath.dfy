/** The text of a path into a document
    (src/runtime/docker/configuration/structured.rs:28-62). */
module ConfigPath {
  import opened Machine
  import opened Wrappers
  import opened Text
  import opened Json
  import opened Sequences

  datatype Segment = Key(key: string) | Index(index: nat) | Wildcard
  type Path = seq<Segment>

  /** The bracketed indexes at the front; one that is not a number is skipped. */
  function ParseIndexes(rest: string): Path
    decreases |rest|
  {
    if rest == "" || rest[0] != '[' then [] else
      var tail := rest[1..];
      var end := Position(tail, c => c == ']');
      if end == |tail| then [] else
        OneIndex(tail[..end]) + ParseIndexes(tail[end + 1..])
  }

  function OneIndex(text: string): Path {
    match ParseUnsigned(text)
    case Some(index) => [Index(index)]
    case None => []
  }

  function ParsePart(part: string): Path {
    if part == "" then []
    else if part == "*" then [Wildcard]
    else
      var bracket := Position(part, c => c == '[');
      (if bracket > 0 then [Key(part[..bracket])] else []) + ParseIndexes(part[bracket..])
  }

  function ParseParts(parts: seq<string>): Path {
    if parts == [] then [] else ParsePart(parts[0]) + ParseParts(parts[1..])
  }

  lemma {:induction false} ParsePartsAppend(parts: seq<string>, part: string)
    ensures ParseParts(parts + [part]) == ParseParts(parts) + ParsePart(part)
    decreases |parts|
  {
    if parts == [] {
      assert parts + [part] == [part];
    } else {
      assert (parts + [part])[1..] == parts[1..] + [part];
      ParsePartsAppend(parts[1..], part);
    }
  }

  /** `parse_path` */
  method ParsePath(path: string) returns (output: Path)
    ensures output == ParseParts(Split(path, '.'))
  {
    hide ParsePart;
    output := [];
    var parts := Split(path, '.');
    for k := 0 to |parts|
      invariant output == ParseParts(parts[..k])
    {
      assert parts[..k + 1] == parts[..k] + [parts[k]];
      ParsePartsAppend(parts[..k], parts[k]);
      output := PushPart(output, parts[k]);
    }
    assert parts[..|parts|] == parts;
  }

  method PushPart(before: Path, part: string) returns (output: Path)
    ensures output == before + ParsePart(part)
  {
    hide ParseIndexes;
    output := before;
    if part == "" { assert before + [] == before; return; }
    if part == "*" { return output + [Wildcard]; }
    var bracket := Position(part, c => c == '[');
    if bracket == |part| {
      assert part[..bracket] == part && part[bracket..] == "";
      EmptyIndexes();
      return output + [Key(part)];
    }
    if bracket > 0 {
      output := output + [Key(part[..bracket])];
    }
    Regroup(before, if bracket > 0 then [Key(part[..bracket])] else [], ParseIndexes(part[bracket..]));
    output := PushIndexes(output, part[bracket..]);
  }

  method PushIndexes(before: Path, indexes: string) returns (output: Path)
    ensures output == before + ParseIndexes(indexes)
  {
    hide ParseUnsigned;
    output := before;
    var rest := indexes;
    while rest != "" && rest[0] == '['
      invariant output + ParseIndexes(rest) == before + ParseIndexes(indexes)
      decreases |rest|
    {
      var tail := rest[1..];
      var end := Position(tail, c => c == ']');
      if end == |tail| { break; }
      var index := ParseUnsigned(tail[..end]);
      AppendNothing(output);
      Regroup(output, OneIndex(tail[..end]), ParseIndexes(tail[end + 1..]));
      if index.Some? {
        output := output + [Index(index.value)];
      }
      rest := tail[end + 1..];
    }
    AppendNothing(output);
  }

  lemma EmptyIndexes()
    ensures ParseIndexes("") == []
  {
  }

  // ---- any text ------------------------------------------------------------------------

  /** What stands in brackets is an index if it spells one that fits, and is passed over otherwise. */
  lemma {:induction false} BracketMeans(inside: string, more: string)
    requires ']' !in inside
    ensures forall n: nat :: IsIndex(inside, n) ==>
      ParseIndexes(['['] + inside + [']'] + more) == [Index(n)] + ParseIndexes(more)
    ensures (forall n: nat :: !IsIndex(inside, n)) ==>
      ParseIndexes(['['] + inside + [']'] + more) == ParseIndexes(more)
  {
    hide ParseUnsigned, Position, IsIndex;
    var tail := inside + [']'] + more;
    assert (['['] + inside + [']'] + more)[1..] == tail;
    PositionAt(inside, ']', more, c => c == ']');
    assert tail[..|inside|] == inside && tail[|inside| + 1..] == more;
    assert [] + ParseIndexes(more) == ParseIndexes(more);
    forall n: nat ensures ParseUnsigned(inside) == Some(n) <==> IsIndex(inside, n) { IndexIsParsed(inside, n); }
  }

  /** Whatever else is behind a name is dropped. */
  lemma OtherTextIsDropped(text: string)
    requires text == "" || text[0] != '[' || ']' !in text
    ensures ParseIndexes(text) == []
  {}

  // ---- writing a path ----------------------------------------------------------------

  datatype Part = Star | Member(name: string, indexes: seq<nat>)

  function Brackets(indexes: seq<nat>): string {
    if indexes == [] then "" else ['['] + Decimal(indexes[0]) + [']'] + Brackets(indexes[1..])
  }

  function Written(part: Part): string {
    match part
    case Star => "*"
    case Member(name, indexes) => name + Brackets(indexes)
  }

  function Joined(parts: seq<Part>): string
    requires parts != []
  {
    if |parts| == 1 then Written(parts[0]) else Written(parts[0]) + ['.'] + Joined(parts[1..])
  }

  function Indexes(indexes: seq<nat>): Path {
    if indexes == [] then [] else [Index(indexes[0])] + Indexes(indexes[1..])
  }

  function Segments(part: Part): Path {
    match part
    case Star => [Wildcard]
    case Member(name, indexes) => (if name == "" then [] else [Key(name)]) + Indexes(indexes)
  }

  function AllSegments(parts: seq<Part>): Path {
    if parts == [] then [] else Segments(parts[0]) + AllSegments(parts[1..])
  }

  /** Names the notation can express: no separator, no bracket, not the star. */
  predicate Expressible(part: Part) {
    part.Member? ==>
      && (forall i :: 0 <= i < |part.name| ==> part.name[i] != '.' && part.name[i] != '[')
      && (forall i :: 0 <= i < |part.indexes| ==> part.indexes[i] <= U64_MAX)
      && (part.name == "*" ==> part.indexes != [])
  }

  lemma {:induction false} BracketsReadBack(indexes: seq<nat>)
    requires forall i :: 0 <= i < |indexes| ==> indexes[i] <= U64_MAX
    ensures ParseIndexes(Brackets(indexes)) == Indexes(indexes)
    decreases |indexes|
  {
    if indexes != [] {
      hide ParseIndexes, Decimal;
      OneBracketReadsBack(indexes[0], Brackets(indexes[1..]));
      BracketsReadBack(indexes[1..]);
    } else {
      assert Brackets(indexes) == "";
    }
  }

  lemma OneBracketReadsBack(index: nat, more: string)
    requires index <= U64_MAX
    ensures ParseIndexes(['['] + Decimal(index) + [']'] + more) == [Index(index)] + ParseIndexes(more)
  {
    hide Decimal, ParseUnsigned, Digits, Position;
    var digits := Decimal(index);
    var tail := digits + [']'] + more;
    assert (['['] + digits + [']'] + more)[1..] == tail;
    NoBracketInDigits(digits);
    PositionAt(digits, ']', more, c => c == ']');
    assert tail[..|digits|] == digits && tail[|digits| + 1..] == more;
    DecimalParses(index);
  }

  lemma NoBracketInDigits(digits: string)
    requires Digits(digits)
    ensures forall i :: 0 <= i < |digits| ==> digits[i] != ']' && digits[i] != '.'
  {
  }

  lemma {:induction false} BracketsShape(indexes: seq<nat>)
    ensures indexes != [] ==> Brackets(indexes) != "" && Brackets(indexes)[0] == '['
    ensures forall i :: 0 <= i < |Brackets(indexes)| ==> Brackets(indexes)[i] != '.'
    decreases |indexes|
  {
    if indexes != [] {
      NoBracketInDigits(Decimal(indexes[0]));
      BracketsShape(indexes[1..]);
    }
  }

  lemma PartReadsBack(part: Part)
    requires Expressible(part)
    ensures ParsePart(Written(part)) == Segments(part)
    ensures forall i :: 0 <= i < |Written(part)| ==> Written(part)[i] != '.'
  {
    match part
    case Star =>
    case Member(name, indexes) =>
      BracketsReadBack(indexes);
      BracketsShape(indexes);
      hide Brackets, ParseIndexes;
      if indexes == [] {
        AppendNothing(name);
        assert Brackets(indexes) == "" by { NoBrackets(); }
        NameReadsBack(name);
      } else {
        NameBeforeBrackets(name, Brackets(indexes));
      }
  }

  lemma NoBrackets()
    ensures Brackets([]) == "" && Indexes([]) == [] && ParseIndexes("") == []
  {
  }

  lemma NameReadsBack(name: string)
    requires name != "*" && forall i :: 0 <= i < |name| ==> name[i] != '['
    ensures ParsePart(name) == if name == "" then [] else [Key(name)]
  {
    assert name[..|name|] == name && name[|name|..] == "";
    NoBrackets();
  }

  lemma NameBeforeBrackets(name: string, brackets: string)
    requires (forall i :: 0 <= i < |name| ==> name[i] != '[') && brackets != "" && brackets[0] == '['
    ensures ParsePart(name + brackets) == (if name == "" then [] else [Key(name)]) + ParseIndexes(brackets)
  {
    hide ParseIndexes, Position;
    var s := name + brackets;
    PositionAt(name, '[', brackets[1..], c => c == '[');
    assert s == name + ['['] + brackets[1..];
    assert s[..|name|] == name && s[|name|..] == brackets;
    assert s[|name|] == '[';
  }

  /** Every path that can be written is read back as itself. */
  lemma {:induction false} PathReadsBack(parts: seq<Part>)
    requires parts != [] && forall i :: 0 <= i < |parts| ==> Expressible(parts[i])
    ensures ParseParts(Split(Joined(parts), '.')) == AllSegments(parts)
    decreases |parts|
  {
    hide ParsePart, Written, Segments;
    var first := Written(parts[0]);
    PartReadsBack(parts[0]);
    if |parts| == 1 {
      assert Position(first, c => c == '.') == |first|;
      assert Split(first, '.') == [first];
      assert ParseParts([first]) == ParsePart(first) + ParseParts([first][1..]);
      assert AllSegments(parts) == Segments(parts[0]) + AllSegments(parts[1..]);
    } else {
      var more := Joined(parts[1..]);
      var s := first + ['.'] + more;
      PositionAt(first, '.', more, c => c == '.');
      assert s[..|first|] == first && s[|first| + 1..] == more;
      assert Split(s, '.') == [first] + Split(more, '.');
      assert ([first] + Split(more, '.'))[1..] == Split(more, '.');
      PathReadsBack(parts[1..]);
    }
  }
}
