/** Setting paths in JSON and YAML documents
    (src/runtime/docker/configuration/structured.rs).

    The tree is a value; setting a path gives the tree that the original
    reaches by changing nodes in place. */
module StructuredConfig {
  import opened Wrappers
  import opened Json
  import opened ConfigPath
  import opened Text

  function InitialValue(rest: Path): Value {
    if rest != [] && rest[0].Index? then Array([]) else Object(map[])
  }

  /** The array after `while array.len() <= index { push }`. */
  function Grown(items: seq<Value>, index: nat, fill: Value): (r: seq<Value>)
    ensures |r| == if |items| <= index then index + 1 else |items|
    ensures items <= r
    ensures forall i :: |items| <= i < |r| ==> r[i] == fill
  {
    if |items| <= index then items + seq(index + 1 - |items|, _ => fill) else items
  }

  function SetPath(library: Library, node: Value, path: Path, replacement: Value): Value
    decreases |path|
  {
    if path == [] then
      match ReplacementForCurrent(replacement, ScalarText(library, node))
      case Some(value) => StructuredValue(library, value)
      case None => node
    else
      var rest := path[1..];
      match path[0]
      case Wildcard => (
        match node
        case Object(fields) => Object(map key | key in fields :: SetPath(library, fields[key], rest, replacement))
        case Array(items) => Array(seq(|items|, i requires 0 <= i < |items| => SetPath(library, items[i], rest, replacement)))
        case _ => node)
      case Key(key) =>
        var fields := if node.Object? then node.fields else map[];
        var child := if key in fields then fields[key] else InitialValue(rest);
        Object(fields[key := SetPath(library, child, rest, replacement)])
      case Index(index) =>
        var items := Grown(if node.Array? then node.items else [], index, InitialValue(rest));
        Array(items[index := SetPath(library, items[index], rest, replacement)])
  }

  // ---- reading ---------------------------------------------------------------------

  /** The child a segment names, if it is there. */
  function Child(node: Value, segment: Segment): Option<Value> {
    match segment
    case Key(key) => if node.Object? && key in node.fields then Some(node.fields[key]) else None
    case Index(index) => if node.Array? && index < |node.items| then Some(node.items[index]) else None
    case Wildcard => None
  }

  function Get(node: Value, path: Path): Option<Value>
    decreases |path|
  {
    if path == [] then Some(node) else
      match Child(node, path[0])
      case Some(child) => Get(child, path[1..])
      case None => None
  }

  predicate Concrete(path: Path) {
    forall i :: 0 <= i < |path| ==> !path[i].Wildcard?
  }

  /** The child that setting a path goes on with: the one that is there or a new one. */
  function ChildOrNew(node: Value, segment: Segment, rest: Path): Value {
    match Child(node, segment)
    case Some(child) => child
    case None => InitialValue(rest)
  }

  /** What setting does to the child that a segment of the path selects. */
  lemma StepInto(library: Library, node: Value, path: Path, replacement: Value)
    requires path != [] && !path[0].Wildcard?
    ensures Child(SetPath(library, node, path, replacement), path[0])
      == Some(SetPath(library, ChildOrNew(node, path[0], path[1..]), path[1..], replacement))
  {
  }

  lemma StepIntoWildcard(library: Library, node: Value, path: Path, replacement: Value, segment: Segment)
    requires path != [] && path[0].Wildcard?
    ensures Child(SetPath(library, node, path, replacement), segment) ==
      match Child(node, segment)
      case Some(child) => Some(SetPath(library, child, path[1..], replacement))
      case None => None
  {
  }

  /** Any other segment: of the same kind it reads as before if it was there,
      of the other kind it is gone. */
  lemma StepBeside(library: Library, node: Value, path: Path, replacement: Value, segment: Segment)
    requires path != [] && !path[0].Wildcard? && segment != path[0] && !segment.Wildcard?
    requires Child(node, segment).Some?
    ensures Child(SetPath(library, node, path, replacement), segment)
      == if segment.Key? == path[0].Key? then Child(node, segment) else None
  {
  }

  // ---- laws ---------------------------------------------------------------------------

  /** Below a prefix, setting a path is setting its rest there. */
  lemma {:induction false} SetBelowPrefix(library: Library, node: Value, prefix: Path, rest: Path, replacement: Value)
    requires Concrete(prefix)
    ensures Get(SetPath(library, node, prefix + rest, replacement), prefix) == Some(SetPath(library,
      match Get(node, prefix)
      case Some(there) => there
      case None => InitialValue(rest),
      rest, replacement))
    decreases |prefix|
  {
    if prefix == [] {
      assert prefix + rest == rest;
    } else {
      var path := prefix + rest;
      assert path[1..] == prefix[1..] + rest;
      StepInto(library, node, path, replacement);
      var child := ChildOrNew(node, prefix[0], path[1..]);
      SetBelowPrefix(library, child, prefix[1..], rest, replacement);
      if Child(node, prefix[0]).None? && prefix[1..] != [] {
        assert Child(child, prefix[1..][0]).None?;
      }
    }
  }

  /** `concrete` names one place that `path` selects in the document: it is
      the path itself, with each wildcard filled in by a child that is there. */
  predicate Selects(node: Value, path: Path, concrete: Path)
    decreases |path|
  {
    if path == [] || concrete == [] then path == concrete
    else if path[0].Wildcard? then
      Child(node, concrete[0]).Some? && Selects(Child(node, concrete[0]).value, path[1..], concrete[1..])
    else path[0] == concrete[0] && Selects(ChildOrNew(node, path[0], path[1..]), path[1..], concrete[1..])
  }

  lemma {:induction false} ConcretePathSelectsItself(node: Value, path: Path)
    requires Concrete(path)
    ensures Selects(node, path, path)
    decreases |path|
  {
    if path != [] {
      ConcretePathSelectsItself(ChildOrNew(node, path[0], path[1..]), path[1..]);
    }
  }

  /** Every selected place reads the coerced replacement afterwards. */
  lemma {:induction false} PutGet(library: Library, node: Value, path: Path, concrete: Path, replacement: Value)
    requires !replacement.Object? && Selects(node, path, concrete)
    ensures Get(SetPath(library, node, path, replacement), concrete) == Some(StructuredValue(library, replacement))
    decreases |path|
  {
    if path != [] {
      if path[0].Wildcard? {
        StepIntoWildcard(library, node, path, replacement, concrete[0]);
        PutGet(library, Child(node, concrete[0]).value, path[1..], concrete[1..], replacement);
      } else {
        StepInto(library, node, path, replacement);
        PutGet(library, ChildOrNew(node, path[0], path[1..]), path[1..], concrete[1..], replacement);
      }
    }
  }

  /** With options for the current text, a selected place that was there reads
      the option for its old text, or what it was if there is none. */
  lemma {:induction false} PutGetOption(library: Library, node: Value, path: Path, concrete: Path, replacement: Value)
    requires replacement.Object? && Selects(node, path, concrete) && Get(node, concrete).Some?
    ensures var current := Get(node, concrete).value;
      var text := ScalarText(library, current);
      Get(SetPath(library, node, path, replacement), concrete) == Some(
        if text in replacement.fields then StructuredValue(library, replacement.fields[text]) else current)
    decreases |path|
  {
    if path != [] {
      if path[0].Wildcard? {
        StepIntoWildcard(library, node, path, replacement, concrete[0]);
        PutGetOption(library, Child(node, concrete[0]).value, path[1..], concrete[1..], replacement);
      } else {
        StepInto(library, node, path, replacement);
        PutGetOption(library, ChildOrNew(node, path[0], path[1..]), path[1..], concrete[1..], replacement);
      }
    }
  }

  /** `other` leaves the path (a wildcard goes along with anything). */
  predicate Leaves(path: Path, other: Path)
    decreases |path|
  {
    && path != [] && other != []
    && if path[0].Wildcard? || path[0] == other[0] then Leaves(path[1..], other[1..]) else true
  }

  /** ... by a segment of the same kind. */
  predicate LeavesByKind(path: Path, other: Path)
    requires Leaves(path, other)
    decreases |path|
  {
    if path[0].Wildcard? || path[0] == other[0] then LeavesByKind(path[1..], other[1..])
    else path[0].Key? == other[0].Key?
  }

  /** A place off the path reads as before if it leaves the path by a segment
      of the same kind, and is lost otherwise. */
  lemma {:induction false} OffThePath(library: Library, node: Value, path: Path, other: Path, replacement: Value)
    requires Concrete(other) && Leaves(path, other) && Get(node, other).Some?
    ensures Get(SetPath(library, node, path, replacement), other)
      == if LeavesByKind(path, other) then Get(node, other) else None
    decreases |path|
  {
    var child := Child(node, other[0]).value;
    if path[0].Wildcard? {
      StepIntoWildcard(library, node, path, replacement, other[0]);
      OffThePath(library, child, path[1..], other[1..], replacement);
    } else if path[0] == other[0] {
      StepInto(library, node, path, replacement);
      OffThePath(library, child, path[1..], other[1..], replacement);
    } else {
      StepBeside(library, node, path, replacement, other[0]);
    }
  }

  /** The array at a prefix grows to the index of the next segment, no further;
      where there is no array, a new one is as long as the index needs. */
  lemma ArrayGrowth(library: Library, node: Value, prefix: Path, index: nat, rest: Path, replacement: Value)
    requires Concrete(prefix)
    ensures var there := Get(node, prefix);
      var size := if there.Some? && there.value.Array? then |there.value.items| else 0;
      var after := Get(SetPath(library, node, prefix + ([Index(index)] + rest), replacement), prefix);
      after.Some? && after.value.Array? && |after.value.items| == if size <= index then index + 1 else size
  {
    SetBelowPrefix(library, node, prefix, [Index(index)] + rest, replacement);
  }

  /** What was not there and is made on the way: an empty array in front of an
      index, else an empty object, in the places before that index too. */
  lemma MadeOnTheWay(library: Library, node: Value, prefix: Path, index: nat, rest: Path, replacement: Value, i: nat)
    requires Concrete(prefix) && i < index && Get(node, prefix + [Index(i)]).None?
    ensures Get(SetPath(library, node, prefix + ([Index(index)] + rest), replacement), prefix + [Index(i)])
      == Some(if rest != [] && rest[0].Index? then Array([]) else Object(map[]))
  {
    hide SetPath;
    SetBelowPrefix(library, node, prefix, [Index(index)] + rest, replacement);
    var there := match Get(node, prefix) case Some(value) => value case None => InitialValue([Index(index)] + rest);
    GetFurther(node, prefix, Index(i));
    GetFurther(SetPath(library, node, prefix + ([Index(index)] + rest), replacement), prefix, Index(i));
    FillerAt(library, there, index, rest, replacement, i);
  }

  lemma FillerAt(library: Library, node: Value, index: nat, rest: Path, replacement: Value, i: nat)
    requires i < index && Child(node, Index(i)).None?
    ensures Child(SetPath(library, node, [Index(index)] + rest, replacement), Index(i)) == Some(InitialValue(rest))
  {
    assert ([Index(index)] + rest)[1..] == rest;
  }

  lemma {:induction false} GetFurther(node: Value, prefix: Path, segment: Segment)
    ensures Get(node, prefix + [segment]) ==
      match Get(node, prefix) case Some(there) => Child(there, segment) case None => None
    decreases |prefix|
  {
    if prefix == [] {
      assert prefix + [segment] == [segment] && [segment][1..] == [];
    } else {
      assert (prefix + [segment])[1..] == prefix[1..] + [segment];
      match Child(node, prefix[0])
      case Some(child) => GetFurther(child, prefix[1..], segment);
      case None =>
    }
  }

  /** Nothing is made beside the path: a key that it leaves by another key stays away. */
  predicate LeavesByKey(path: Path, other: Path)
    decreases |path|
  {
    && path != [] && other != []
    && if path[0].Wildcard? || path[0] == other[0] then LeavesByKey(path[1..], other[1..])
       else path[0].Key? && other[0].Key?
  }

  lemma {:induction false} NothingBeside(library: Library, node: Value, path: Path, other: Path, replacement: Value)
    requires LeavesByKey(path, other) && Concrete(other)
    requires Get(node, other).None?
    ensures Get(SetPath(library, node, path, replacement), other).None?
    decreases |path|
  {
    if path[0].Wildcard? {
      StepIntoWildcard(library, node, path, replacement, other[0]);
      if Child(node, other[0]).Some? { NothingBeside(library, Child(node, other[0]).value, path[1..], other[1..], replacement); }
    } else if path[0] == other[0] {
      StepInto(library, node, path, replacement);
      var child := ChildOrNew(node, path[0], path[1..]);
      NothingInNew(path[1..], other[1..]);
      NothingBeside(library, child, path[1..], other[1..], replacement);
    }
  }

  lemma NothingInNew(rest: Path, other: Path)
    requires other != []
    ensures Get(InitialValue(rest), other).None?
  {}

  // ---- setting twice --------------------------------------------------------------------

  /** At one place, `second` makes no difference to what `first` was before it. */
  ghost predicate Overrides(library: Library, first: Value, second: Value) {
    forall leaf :: SetPath(library, SetPath(library, leaf, [], first), [], second) == SetPath(library, leaf, [], second)
  }

  ghost predicate OverridesAt(library: Library, path: Path, first: Value, second: Value) {
    forall node :: SetPath(library, SetPath(library, node, path, first), path, second) == SetPath(library, node, path, second)
  }

  lemma {:induction false} OverridingBelow(library: Library, node: Value, path: Path, first: Value, second: Value)
    requires Overrides(library, first, second)
    ensures SetPath(library, SetPath(library, node, path, first), path, second) == SetPath(library, node, path, second)
    decreases |path|
  {
    if path != [] {
      var rest := path[1..];
      forall child ensures SetPath(library, SetPath(library, child, rest, first), rest, second) == SetPath(library, child, rest, second) {
        OverridingBelow(library, child, rest, first, second);
      }
      OverridingStep(library, node, path, first, second);
    }
  }

  lemma OverridingStep(library: Library, node: Value, path: Path, first: Value, second: Value)
    requires path != [] && OverridesAt(library, path[1..], first, second)
    ensures SetPath(library, SetPath(library, node, path, first), path, second) == SetPath(library, node, path, second)
  {
    match path[0]
    case Key(_) => OverridingKey(library, node, path, first, second);
    case Index(_) => OverridingIndex(library, node, path, first, second);
    case Wildcard => OverridingWildcard(library, node, path, first, second);
  }

  function FieldsOf(node: Value): map<string, Value> {
    if node.Object? then node.fields else map[]
  }

  lemma UnfoldKey(library: Library, node: Value, path: Path, replacement: Value)
    requires path != [] && path[0].Key?
    ensures SetPath(library, node, path, replacement) == Object(FieldsOf(node)[path[0].key :=
      SetPath(library, ChildOrNew(node, path[0], path[1..]), path[1..], replacement)])
  {
  }

  lemma OverridingKey(library: Library, node: Value, path: Path, first: Value, second: Value)
    requires path != [] && path[0].Key? && OverridesAt(library, path[1..], first, second)
    ensures SetPath(library, SetPath(library, node, path, first), path, second) == SetPath(library, node, path, second)
  {
    hide SetPath;
    var key, rest := path[0].key, path[1..];
    var child := ChildOrNew(node, path[0], rest);
    var once := SetPath(library, child, rest, first);
    UnfoldKey(library, node, path, first);
    UnfoldKey(library, node, path, second);
    UnfoldKey(library, SetPath(library, node, path, first), path, second);
    assert FieldsOf(node)[key := once][key := SetPath(library, once, rest, second)] == FieldsOf(node)[key := SetPath(library, child, rest, second)];
  }

  lemma OverridingIndex(library: Library, node: Value, path: Path, first: Value, second: Value)
    requires path != [] && path[0].Index? && OverridesAt(library, path[1..], first, second)
    ensures SetPath(library, SetPath(library, node, path, first), path, second) == SetPath(library, node, path, second)
  {
    var index, rest := path[0].index, path[1..];
    var items := Grown(if node.Array? then node.items else [], index, InitialValue(rest));
    var child := items[index];
    var once := SetPath(library, child, rest, first);
    assert SetPath(library, node, path, first) == Array(items[index := once]);
    assert items[index := once][index := SetPath(library, once, rest, second)] == items[index := SetPath(library, child, rest, second)];
  }

  lemma UnfoldWildcard(library: Library, node: Value, path: Path, replacement: Value)
    requires path != [] && path[0].Wildcard?
    ensures var updated := SetPath(library, node, path, replacement);
      match node
      case Object(fields) =>
        && updated.Object? && updated.fields.Keys == fields.Keys
        && forall key :: key in fields ==> updated.fields[key] == SetPath(library, fields[key], path[1..], replacement)
      case Array(items) =>
        && updated.Array? && |updated.items| == |items|
        && forall i :: 0 <= i < |items| ==> updated.items[i] == SetPath(library, items[i], path[1..], replacement)
      case _ => updated == node
  {
  }

  lemma OverridingWildcard(library: Library, node: Value, path: Path, first: Value, second: Value)
    requires path != [] && path[0].Wildcard? && OverridesAt(library, path[1..], first, second)
    ensures SetPath(library, SetPath(library, node, path, first), path, second) == SetPath(library, node, path, second)
  {
    hide SetPath;
    var once := SetPath(library, node, path, first);
    UnfoldWildcard(library, node, path, first);
    UnfoldWildcard(library, node, path, second);
    UnfoldWildcard(library, once, path, second);
    var twice := SetPath(library, once, path, second);
    var straight := SetPath(library, node, path, second);
    if node.Object? {
      assert twice.fields == straight.fields;
    } else if node.Array? {
      assert twice.items == straight.items;
    }
  }

  /** A document with one place at `path`. */
  function Planted(path: Path, leaf: Value): Value
    decreases |path|
  {
    if path == [] then leaf else
      match path[0]
      case Key(key) => Object(map[key := Planted(path[1..], leaf)])
      case Index(index) => Array(Grown([], index, Planted(path[1..], leaf)))
      case Wildcard => Array([Planted(path[1..], leaf)])
  }

  lemma {:induction false} OverridingAtPlanted(library: Library, path: Path, leaf: Value, first: Value, second: Value)
    requires var node := Planted(path, leaf);
      SetPath(library, SetPath(library, node, path, first), path, second) == SetPath(library, node, path, second)
    ensures SetPath(library, SetPath(library, leaf, [], first), [], second) == SetPath(library, leaf, [], second)
    decreases |path|
  {
    if path != [] {
      hide SetPath;
      var node := Planted(path, leaf);
      var once := SetPath(library, node, path, first);
      var segment := if path[0].Wildcard? then Index(0) else path[0];
      assert Child(node, segment) == Some(Planted(path[1..], leaf));
      if path[0].Wildcard? {
        StepIntoWildcard(library, node, path, first, segment);
        StepIntoWildcard(library, node, path, second, segment);
        StepIntoWildcard(library, once, path, second, segment);
      } else {
        StepInto(library, node, path, first);
        StepInto(library, node, path, second);
        StepInto(library, once, path, second);
      }
      OverridingAtPlanted(library, path[1..], leaf, first, second);
    }
  }

  /** What decides at one place decides at every path of every document. */
  lemma OverridingIsLocal(library: Library, path: Path, first: Value, second: Value)
    ensures OverridesAt(library, path, first, second) <==> Overrides(library, first, second)
  {
    hide SetPath;
    if Overrides(library, first, second) {
      forall node ensures SetPath(library, SetPath(library, node, path, first), path, second) == SetPath(library, node, path, second) {
        OverridingBelow(library, node, path, first, second);
      }
    }
    if OverridesAt(library, path, first, second) {
      forall leaf ensures SetPath(library, SetPath(library, leaf, [], first), [], second) == SetPath(library, leaf, [], second) {
        OverridingAtPlanted(library, path, leaf, first, second);
      }
    }
  }

  /** The last of two replacements at the same path decides, whatever the first one was. */
  lemma LastSetWins(library: Library, path: Path, first: Value, second: Value)
    requires !second.Object?
    ensures OverridesAt(library, path, first, second)
  {
    PlainOverrides(library, first, second);
    OverridingIsLocal(library, path, first, second);
  }

  /** No option is itself the current text of a different option. */
  predicate Settled(library: Library, replacement: Value) {
    replacement.Object? ==>
      forall key :: key in replacement.fields ==>
        var written := StructuredValue(library, replacement.fields[key]);
        var text := ScalarText(library, written);
        text in replacement.fields ==> StructuredValue(library, replacement.fields[text]) == written
  }

  lemma TextIsItself(library: Library, text: string)
    ensures ScalarText(library, Value.Text(text)) == text
  {
  }

  /** Setting twice is setting once, in every document, exactly for a plain
      replacement or options that do not chain. */
  lemma SettingTwice(library: Library, path: Path, replacement: Value)
    ensures OverridesAt(library, path, replacement, replacement) <==> Settled(library, replacement)
  {
    hide SetPath;
    OverridingIsLocal(library, path, replacement, replacement);
    if replacement.Object? { OptionsSettle(library, replacement); } else { PlainOverrides(library, replacement, replacement); }
  }

  lemma PlainOverrides(library: Library, first: Value, second: Value)
    requires !second.Object?
    ensures Overrides(library, first, second)
  {
  }

  lemma OptionsSettle(library: Library, replacement: Value)
    requires replacement.Object?
    ensures Overrides(library, replacement, replacement) <==> Settled(library, replacement)
  {
    hide StructuredValue, ScalarText;
    if Settled(library, replacement) {
      forall leaf ensures SetPath(library, SetPath(library, leaf, [], replacement), [], replacement) == SetPath(library, leaf, [], replacement) {
        var text := ScalarText(library, leaf);
        if text in replacement.fields {
          assert SetPath(library, leaf, [], replacement) == StructuredValue(library, replacement.fields[text]);
        }
      }
    }
    if Overrides(library, replacement, replacement) {
      forall key | key in replacement.fields
        ensures var written := StructuredValue(library, replacement.fields[key]);
          var text := ScalarText(library, written);
          text in replacement.fields ==> StructuredValue(library, replacement.fields[text]) == written
      {
        var leaf := Value.Text(key);
        TextIsItself(library, key);
        assert SetPath(library, SetPath(library, leaf, [], replacement), [], replacement) == SetPath(library, leaf, [], replacement);
      }
    }
  }

  // ---- a whole configuration --------------------------------------------------------------

  datatype Wanted = Wanted(path: string, replacement: Value)

  function SetAll(library: Library, document: Value, find: seq<Wanted>): Value
    decreases |find|
  {
    if find == [] then document else
      var last := |find| - 1;
      SetPath(library, SetAll(library, document, find[..last]), PathOf(find[last]), find[last].replacement)
  }

  function PathOf(wanted: Wanted): Path {
    ParseParts(Split(wanted.path, '.'))
  }

  /** `apply_structured_replacements` */
  method ApplyStructuredReplacements(library: Library, document: Value, find: seq<Wanted>) returns (node: Value)
    ensures node == SetAll(library, document, find)
  {
    node := document;
    for k := 0 to |find|
      invariant node == SetAll(library, document, find[..k])
    {
      var segments := ParsePath(find[k].path);
      node := SetPath(library, node, segments, find[k].replacement);
      assert find[..k + 1][..k] == find[..k];
    }
    assert find[..|find|] == find;
  }

  /** No path runs through another one's place. */
  predicate Apart(find: seq<Wanted>) {
    && (forall i :: 0 <= i < |find| ==> Concrete(PathOf(find[i])) && !find[i].replacement.Object?)
    && (forall i, j :: 0 <= i < |find| && 0 <= j < |find| && i != j ==>
         Leaves(PathOf(find[i]), PathOf(find[j])) && LeavesByKind(PathOf(find[i]), PathOf(find[j])))
  }

  ghost predicate ReadsReplacement(library: Library, document: Value, wanted: Wanted) {
    Get(document, PathOf(wanted)) == Some(StructuredValue(library, wanted.replacement))
  }

  /** All wanted paths read their replacements at the end. */
  lemma {:induction false} AllAreSet(library: Library, document: Value, find: seq<Wanted>)
    requires Apart(find)
    ensures forall k :: 0 <= k < |find| ==> ReadsReplacement(library, SetAll(library, document, find), find[k])
    decreases |find|
  {
    if find != [] {
      var last := |find| - 1;
      ApartPrefix(find);
      AllAreSet(library, document, find[..last]);
      hide SetPath, ReadsReplacement, Apart, PathOf;
      var before := SetAll(library, document, find[..last]);
      LastIsSet(library, before, find[last]) by { ApartMember(find, last); }
      forall k | 0 <= k < last ensures ReadsReplacement(library, SetAll(library, document, find), find[k]) {
        assert find[..last][k] == find[k];
        ApartMember(find, k);
        EarlierStays(library, before, find[k], find[last]);
      }
    }
  }

  lemma ApartPrefix(find: seq<Wanted>)
    requires Apart(find) && find != []
    ensures Apart(find[..|find| - 1])
  {}

  lemma ApartMember(find: seq<Wanted>, k: nat)
    requires Apart(find) && k < |find|
    ensures Concrete(PathOf(find[k])) && !find[k].replacement.Object?
    ensures k < |find| - 1 ==>
      var last := find[|find| - 1];
      Leaves(PathOf(last), PathOf(find[k])) && LeavesByKind(PathOf(last), PathOf(find[k]))
  {}

  lemma LastIsSet(library: Library, before: Value, wanted: Wanted)
    requires Concrete(PathOf(wanted)) && !wanted.replacement.Object?
    ensures ReadsReplacement(library, SetPath(library, before, PathOf(wanted), wanted.replacement), wanted)
  {
    hide SetPath, Get, StructuredValue;
    ConcretePathSelectsItself(before, PathOf(wanted));
    PutGet(library, before, PathOf(wanted), PathOf(wanted), wanted.replacement);
  }

  lemma EarlierStays(library: Library, before: Value, earlier: Wanted, last: Wanted)
    requires ReadsReplacement(library, before, earlier) && Concrete(PathOf(earlier))
    requires Leaves(PathOf(last), PathOf(earlier)) && LeavesByKind(PathOf(last), PathOf(earlier))
    ensures ReadsReplacement(library, SetPath(library, before, PathOf(last), last.replacement), earlier)
  {
    hide SetPath, Get, StructuredValue, Leaves, LeavesByKind;
    OffThePath(library, before, PathOf(last), PathOf(earlier), last.replacement);
  }

  /** A place that all of them leave by a segment of the same kind reads as in the document. */
  lemma {:induction false} OthersAreKept(library: Library, document: Value, find: seq<Wanted>, other: Path)
    requires Concrete(other) && Get(document, other).Some?
    requires forall k :: 0 <= k < |find| ==> Leaves(PathOf(find[k]), other) && LeavesByKind(PathOf(find[k]), other)
    ensures Get(SetAll(library, document, find), other) == Get(document, other)
    decreases |find|
  {
    hide SetPath, Get, Leaves, LeavesByKind, PathOf;
    if find != [] {
      var last := |find| - 1;
      assert forall k :: 0 <= k < last ==> find[..last][k] == find[k];
      OthersAreKept(library, document, find[..last], other);
      hide SetAll;
      OffThePath(library, SetAll(library, document, find[..last]), PathOf(find[last]), other, find[last].replacement);
      AllButLast(library, document, find);
    }
  }

  lemma AllButLast(library: Library, document: Value, find: seq<Wanted>)
    requires find != []
    ensures var last := |find| - 1;
      SetAll(library, document, find) == SetPath(library, SetAll(library, document, find[..last]), PathOf(find[last]), find[last].replacement)
  {}
}
