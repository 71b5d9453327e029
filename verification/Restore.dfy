/** Restoring a backup (src/storage/backup/archive.rs).

    The calls to the file system are numbered, an oracle says which of them
    fail, and a directory is listed in any order. */
module Restore {
  import opened Machine

  type Name = string
  datatype Entry = File(content: seq<byte>) | Directory(children: map<Name, Entry>)
  type Contents = map<Name, Entry>

  /** What the caller is told. */
  datatype Outcome = Restored | Failed | FailedRollbackToo | FailedClearToo

  /** The numbers of the calls that fail. */
  type Oracle = set<nat>

  class Folder {
    var present: bool
    var entries: Contents

    constructor ()
      ensures !present && entries == map[]
    {
      present, entries := false, map[];
    }

    /** `create_dir_all`: an existing directory is left alone. */
    method Create()
      requires !present ==> entries == map[]
      modifies this
      ensures present && entries == old(entries)
    {
      present := true;
    }

    /** `remove_dir_all`, whose result is ignored: a failure may leave anything behind. */
    method Discard()
      modifies this
    {
      present := *;
      entries := *;
    }
  }

  // ---- moving entries, on values -------------------------------------------------------

  function Restrict(contents: Contents, names: set<Name>): (r: Contents)
    ensures r.Keys == contents.Keys * names
  {
    map name | name in contents && name in names :: contents[name]
  }

  /** `source` and `destination` after the entries called `names` have been moved. */
  ghost predicate Moved(source: Contents, destination: Contents, names: set<Name>, source': Contents, destination': Contents) {
    && names <= source.Keys
    && source' == source - names
    && destination' == destination + Restrict(source, names)
  }

  lemma MoveNone(source: Contents, destination: Contents)
    ensures Moved(source, destination, {}, source, destination)
  {}

  lemma MovedAll(source: Contents, destination: Contents, names: set<Name>, source': Contents, destination': Contents)
    requires Moved(source, destination, names, source', destination') && source'.Keys == {}
    ensures names == source.Keys
  {
    forall name | name in source ensures name in names {
      assert name !in source'.Keys;
    }
  }

  lemma MoveOne(source: Contents, destination: Contents, names: set<Name>, source': Contents, destination': Contents, name: Name)
    requires Moved(source, destination, names, source', destination')
    requires name in source'
    ensures Moved(source, destination, names + {name}, source' - {name}, destination'[name := source'[name]])
    ensures name !in names
  {}

  /** Moving any part of a directory into an empty one and all of that back
      again, in whatever order, gives the directory as it was. */
  lemma MovingBackRestores(original: Contents, names: set<Name>, left: Contents, aside: Contents, back: set<Name>, aside': Contents, target: Contents)
    requires Moved(original, map[], names, left, aside)
    requires Moved(aside, left, back, aside', target)
    ensures back == aside.Keys ==> target == original
    ensures target == original - aside'.Keys && aside' == Restrict(original, aside'.Keys)
  {
    assert aside == Restrict(original, names);
    forall name | name in original
      ensures name in target <==> name !in aside'
      ensures name in target ==> target[name] == original[name]
    {
    }
  }

  // ---- what an oracle decides ----------------------------------------------------------

  /** After a number of calls, stopping at the first that fails. */
  datatype Trial = Trial(ok: bool, next: nat)

  function Calls(oracle: Oracle, c: nat, n: nat): Trial
    decreases n
  {
    if n == 0 then Trial(true, c) else if c in oracle then Trial(false, c + 1) else Calls(oracle, c + 1, n - 1)
  }

  /** ... of a move, and how many entries have moved. */
  datatype Moves = Moves(ok: bool, next: nat, done: nat)

  /** Listing an entry and renaming it, for each of `n`, and finding no more. */
  function MoveEntries(oracle: Oracle, c: nat, n: nat): (moves: Moves)
    ensures moves.done <= n && (moves.ok ==> moves.done == n)
    decreases n
  {
    if c in oracle then Moves(false, c + 1, 0)
    else if n == 0 then Moves(true, c + 1, 0)
    else if c + 1 in oracle then Moves(false, c + 2, 0)
    else
      var rest := MoveEntries(oracle, c + 2, n - 1);
      Moves(rest.ok, rest.next, rest.done + 1)
  }

  /** ... after creating the destination and opening the source. */
  function MoveCalls(oracle: Oracle, c: nat, n: nat): (moves: Moves)
    ensures moves.done <= n && (moves.ok ==> moves.done == n)
  {
    if c in oracle then Moves(false, c + 1, 0)
    else if c + 1 in oracle then Moves(false, c + 2, 0)
    else MoveEntries(oracle, c + 2, n)
  }

  /** The outcome, how many entries are stranded, and the number of the next call. */
  datatype Fate = Fate(outcome: Outcome, stranded: nat, next: nat)

  /** ... of clearing `placed` entries and moving the originals back. */
  function Undoing(oracle: Oracle, c: nat, originals: nat, placed: nat): Fate {
    var cleared := Calls(oracle, c, 3 * placed + 2);
    var back := MoveCalls(oracle, cleared.next, originals);
    Fate(if !cleared.ok then FailedClearToo else if back.ok then Failed else FailedRollbackToo, originals - back.done, back.next)
  }

  /** ... of replacing `originals` entries by `archived` staged ones. */
  function Replacing(oracle: Oracle, c: nat, originals: nat, archived: nat): Fate {
    var aside := MoveCalls(oracle, c, originals);
    if !aside.ok then
      var back := MoveCalls(oracle, aside.next, aside.done);
      Fate(if back.ok then Failed else FailedRollbackToo, aside.done - back.done, back.next)
    else
      var activated := MoveCalls(oracle, aside.next, archived);
      if activated.ok then Fate(Restored, 0, activated.next)
      else Undoing(oracle, activated.next, originals, activated.done)
  }

  lemma ReplacingUnfolds(oracle: Oracle, c: nat, originals: nat, archived: nat)
    ensures var aside := MoveCalls(oracle, c, originals);
      var activated := MoveCalls(oracle, aside.next, archived);
      var fate := Replacing(oracle, c, originals, archived);
      && (!aside.ok ==>
           var back := MoveCalls(oracle, aside.next, aside.done);
           fate == Fate(if back.ok then Failed else FailedRollbackToo, aside.done - back.done, back.next))
      && (aside.ok && activated.ok ==> fate == Fate(Restored, 0, activated.next))
      && (aside.ok && !activated.ok ==> fate == Undoing(oracle, activated.next, originals, activated.done))
  {
    hide MoveCalls, Calls;
  }

  /** ... of a whole restore. */
  function Restoring(oracle: Oracle, c: nat, present: bool, originals: nat, archived: nat): Fate {
    var prepared := Calls(oracle, c, 4);
    if !prepared.ok then Fate(Failed, 0, prepared.next)
    else if !present then Fate(Restored, 0, prepared.next)
    else Replacing(oracle, prepared.next, originals, archived)
  }

  /** Of the calls `c..next` either none failed, or exactly the last one. */
  ghost predicate StopsAtFirst(oracle: Oracle, c: nat, next: nat, ok: bool) {
    && c <= next && (!ok ==> c < next && next - 1 in oracle)
    && forall k :: c <= k < (if ok then next else next - 1) ==> k !in oracle
  }

  lemma {:induction false} CallsStop(oracle: Oracle, c: nat, n: nat)
    ensures var t := Calls(oracle, c, n); StopsAtFirst(oracle, c, t.next, t.ok)
    decreases n
  {
    if n > 0 && c !in oracle { CallsStop(oracle, c + 1, n - 1); }
  }

  lemma {:induction false} MoveEntriesStop(oracle: Oracle, c: nat, n: nat)
    ensures var m := MoveEntries(oracle, c, n); StopsAtFirst(oracle, c, m.next, m.ok)
    decreases n
  {
    if n > 0 && c !in oracle && c + 1 !in oracle { MoveEntriesStop(oracle, c + 2, n - 1); }
  }

  lemma MoveCallsStop(oracle: Oracle, c: nat, n: nat)
    ensures var m := MoveCalls(oracle, c, n); StopsAtFirst(oracle, c, m.next, m.ok)
  {
    MoveEntriesStop(oracle, c + 2, n);
  }

  /** Two of the calls `c..next` fail. */
  ghost predicate FailsTwice(oracle: Oracle, c: nat, next: nat) {
    exists i, k :: c <= i < k < next && i in oracle && k in oracle
  }

  ghost predicate NoneFails(oracle: Oracle, c: nat, next: nat) { forall k :: c <= k < next ==> k !in oracle }

  /** A restore succeeds exactly if none of its calls fails, gives the original
      back exactly if one fails, and reports worse exactly if a second one does. */
  lemma TwoFailuresAreNotRolledBack(oracle: Oracle, c: nat, present: bool, originals: nat, archived: nat)
    ensures var fate := Restoring(oracle, c, present, originals, archived);
      && (fate.outcome == Restored <==> NoneFails(oracle, c, fate.next))
      && (fate.outcome == FailedRollbackToo || fate.outcome == FailedClearToo <==> FailsTwice(oracle, c, fate.next))
      && (fate.stranded > 0 ==> FailsTwice(oracle, c, fate.next))
  {
    var prepared := Calls(oracle, c, 4);
    CallsStop(oracle, c, 4);
    if prepared.ok && present {
      hide Calls;
      ReplacingFails(oracle, prepared.next, originals, archived);
      hide Replacing;
    }
  }

  lemma ReplacingFails(oracle: Oracle, c: nat, originals: nat, archived: nat)
    ensures var fate := Replacing(oracle, c, originals, archived);
      && c <= fate.next
      && (fate.outcome == Restored <==> NoneFails(oracle, c, fate.next))
      && (fate.outcome == FailedRollbackToo || fate.outcome == FailedClearToo <==> FailsTwice(oracle, c, fate.next))
      && (fate.stranded > 0 ==> FailsTwice(oracle, c, fate.next))
  {
    var aside := MoveCalls(oracle, c, originals);
    MoveCallsStop(oracle, c, originals);
    if !aside.ok {
      MoveCallsStop(oracle, aside.next, aside.done);
    } else {
      var activated := MoveCalls(oracle, aside.next, archived);
      MoveCallsStop(oracle, aside.next, archived);
      if !activated.ok {
        var cleared := Calls(oracle, activated.next, 3 * activated.done + 2);
        CallsStop(oracle, activated.next, 3 * activated.done + 2);
        MoveCallsStop(oracle, cleared.next, originals);
      }
    }
    hide MoveCalls, Calls;
  }

  // ---- which calls lose entries ----------------------------------------------------------

  /** The first of the calls `c..end` that fails, or `end`. */
  function FirstFailure(oracle: Oracle, c: nat, end: nat): (first: nat)
    requires c <= end
    ensures c <= first <= end && (first < end ==> first in oracle)
    ensures forall k :: c <= k < first ==> k !in oracle
    decreases end - c
  {
    if c == end || c in oracle then c else FirstFailure(oracle, c + 1, end)
  }

  /** A move of `n` entries creates and opens a directory, lists and renames
      each entry, and finds no more: this many calls. */
  function MoveLength(n: nat): nat { 2 * n + 3 }

  /** How many entries a move has renamed when it is `k` calls old. */
  function RenamedBy(k: nat): nat { if k < 2 then 0 else (k - 2) / 2 }

  /** Where a move stops, and with how many entries moved, in terms of the call that fails. */
  lemma {:induction false} MoveEntriesStopsAt(oracle: Oracle, c: nat, n: nat)
    ensures var first := FirstFailure(oracle, c, c + 2 * n + 1);
      MoveEntries(oracle, c, n) == if first == c + 2 * n + 1 then Moves(true, first, n) else Moves(false, first + 1, (first - c) / 2)
    decreases n
  {
    if c in oracle {
    } else if n == 0 {
    } else if c + 1 in oracle {
    } else {
      MoveEntriesStopsAt(oracle, c + 2, n - 1);
    }
  }

  lemma MoveStopsAt(oracle: Oracle, c: nat, n: nat)
    ensures var first := FirstFailure(oracle, c, c + MoveLength(n));
      MoveCalls(oracle, c, n) ==
        if first == c + MoveLength(n) then Moves(true, first, n) else Moves(false, first + 1, RenamedBy(first - c))
  {
    MoveEntriesStopsAt(oracle, c + 2, n);
  }

  lemma {:induction false} CallsStopAt(oracle: Oracle, c: nat, n: nat)
    ensures var first := FirstFailure(oracle, c, c + n);
      Calls(oracle, c, n) == if first == c + n then Trial(true, first) else Trial(false, first + 1)
    decreases n
  {
    if n > 0 && c !in oracle { CallsStopAt(oracle, c + 1, n - 1); }
  }

  /** A move back of `n` entries from call `c` on leaves some behind exactly if
      it fails before its last call, which only finds that there are no more. */
  ghost predicate LeavesBehind(oracle: Oracle, c: nat, n: nat) {
    n > 0 && exists k :: c <= k < c + MoveLength(n) - 1 && k in oracle
  }

  lemma MoveLeavesBehind(oracle: Oracle, c: nat, n: nat)
    ensures MoveCalls(oracle, c, n).done < n <==> LeavesBehind(oracle, c, n)
  {
    MoveStopsAt(oracle, c, n);
    hide MoveCalls;
    var first := FirstFailure(oracle, c, c + MoveLength(n));
    if first < c + MoveLength(n) - 1 { assert first in oracle; }
  }

  /** The first failing call `aside` is that of moving the originals aside, and
      moving back those already moved leaves some behind. */
  ghost predicate LostOnTheWay(oracle: Oracle, c: nat, originals: nat) {
    var aside := FirstFailure(oracle, c, c + MoveLength(originals));
    aside < c + MoveLength(originals) && LeavesBehind(oracle, aside + 1, RenamedBy(aside - c))
  }

  /** Moving the archive in fails first, clearing what it placed ends at call
      `back`, by success or failure, and moving the originals back leaves some behind. */
  ghost predicate LostOnActivation(oracle: Oracle, c: nat, originals: nat, archived: nat) {
    var start := c + MoveLength(originals);
    var placing := FirstFailure(oracle, start, start + MoveLength(archived));
    && NoneFails(oracle, c, start) && placing < start + MoveLength(archived)
    && var clearing := 3 * RenamedBy(placing - start) + 2;
      var stopped := FirstFailure(oracle, placing + 1, placing + 1 + clearing);
      var back := if stopped == placing + 1 + clearing then stopped else stopped + 1;
      LeavesBehind(oracle, back, originals)
  }

  /** Exactly which failing calls lose entries of the original, in terms of the
      calls alone: none of the four that prepare fails, and then one of a move
      and one of the move back that undoes it. */
  lemma EntriesAreLostIff(oracle: Oracle, c: nat, present: bool, originals: nat, archived: nat)
    ensures Restoring(oracle, c, present, originals, archived).stranded > 0 <==>
      && present && NoneFails(oracle, c, c + 4)
      && (LostOnTheWay(oracle, c + 4, originals) || LostOnActivation(oracle, c + 4, originals, archived))
  {
    CallsStopAt(oracle, c, 4);
    hide Calls;
    ReplacingLosesIff(oracle, c + 4, originals, archived);
    hide Replacing, LostOnTheWay, LostOnActivation;
  }

  lemma ReplacingLosesIff(oracle: Oracle, c: nat, originals: nat, archived: nat)
    ensures Replacing(oracle, c, originals, archived).stranded > 0 <==>
      LostOnTheWay(oracle, c, originals) || LostOnActivation(oracle, c, originals, archived)
  {
    MoveStopsAt(oracle, c, originals);
    ReplacingUnfolds(oracle, c, originals, archived);
    hide MoveCalls, Replacing, Undoing, LeavesBehind, RenamedBy, MoveLength, FirstFailure;
    var aside := MoveCalls(oracle, c, originals);
    if !aside.ok {
      MoveLeavesBehind(oracle, aside.next, aside.done);
    } else {
      var start := c + MoveLength(originals);
      MoveStopsAt(oracle, start, archived);
      var activated := MoveCalls(oracle, start, archived);
      if !activated.ok {
        UndoingLosesIff(oracle, activated.next, originals, activated.done);
      }
    }
  }

  lemma UndoingLosesIff(oracle: Oracle, c: nat, originals: nat, placed: nat)
    ensures var clearing := 3 * placed + 2;
      var stopped := FirstFailure(oracle, c, c + clearing);
      var back := if stopped == c + clearing then stopped else stopped + 1;
      Undoing(oracle, c, originals, placed).stranded > 0 <==> LeavesBehind(oracle, back, originals)
  {
    CallsStopAt(oracle, c, 3 * placed + 2);
    hide Calls, MoveCalls;
    MoveLeavesBehind(oracle, Calls(oracle, c, 3 * placed + 2).next, originals);
  }

  /** Entries can be lost: the second rename fails, and so does the first one back. */
  lemma RollbackCanStrand(archived: nat)
    ensures Restoring({9, 13}, 0, true, 2, archived) == Fate(FailedRollbackToo, 1, 14)
  {
    var oracle: Oracle := {9, 13};
    assert Calls(oracle, 0, 4) == Trial(true, 4) by {
      assert Calls(oracle, 1, 3) == Calls(oracle, 2, 2) == Calls(oracle, 3, 1) == Calls(oracle, 4, 0);
    }
    assert MoveEntries(oracle, 8, 1) == Moves(false, 10, 0);
    assert MoveEntries(oracle, 6, 2) == Moves(false, 10, 1);
    assert MoveEntries(oracle, 12, 1) == Moves(false, 14, 0);
  }

  // ---- the operations ----------------------------------------------------------------------

  /** `move_directory_contents`: stops at the first call that fails. */
  method MoveDirectoryContents(oracle: Oracle, c: nat, source: Folder, destination: Folder)
    returns (ok: bool, next: nat, ghost moved: set<Name>)
    requires source != destination && source.present
    requires !destination.present ==> destination.entries == map[]
    modifies source`entries, destination
    ensures Moves(ok, next, |moved|) == MoveCalls(oracle, c, |old(source.entries)|)
    ensures Moved(old(source.entries), old(destination.entries), moved, source.entries, destination.entries)
    ensures ok ==> destination.present && moved == old(source.entries).Keys
    ensures old(destination.present) ==> destination.present
  {
    hide Moved, MoveEntries;
    MoveNone(source.entries, destination.entries);
    if c in oracle { return false, c + 1, {}; }
    destination.Create();
    if c + 1 in oracle { return false, c + 2, {}; }
    ok, next, moved := MoveListed(oracle, c + 2, source, destination);
  }

  /** The loop over the listing. */
  method MoveListed(oracle: Oracle, c: nat, source: Folder, destination: Folder)
    returns (ok: bool, next: nat, ghost moved: set<Name>)
    requires source != destination
    modifies source`entries, destination`entries
    ensures Moves(ok, next, |moved|) == MoveEntries(oracle, c, |old(source.entries)|)
    ensures Moved(old(source.entries), old(destination.entries), moved, source.entries, destination.entries)
    ensures ok ==> moved == old(source.entries).Keys
  {
    hide Moved, Midway, MoveEntries;
    ghost var all := MoveEntries(oracle, c, |source.entries|);
    moved, next := {}, c;
    MidwayStarts(oracle, c, source.entries, destination.entries);
    var unread := source.entries.Keys;
    while unread != {}
      invariant unread == source.entries.Keys
      invariant Midway(oracle, all, old(source.entries), old(destination.entries), moved, next, source.entries, destination.entries)
      decreases |unread|
    {
      MidwayStops(oracle, all, old(source.entries), old(destination.entries), moved, next, source.entries, destination.entries);
      if next in oracle { return false, next + 1, moved; }
      var name :| name in unread;
      if next + 1 in oracle { return false, next + 2, moved; }
      MidwayMoves(oracle, all, old(source.entries), old(destination.entries), moved, next, source.entries, destination.entries, name);
      var entry := source.entries[name];
      source.entries := source.entries - {name};
      destination.entries := destination.entries[name := entry];
      next, moved, unread := next + 2, moved + {name}, unread - {name};
    }
    MidwayStops(oracle, all, old(source.entries), old(destination.entries), moved, next, source.entries, destination.entries);
    return next !in oracle, next + 1, moved;
  }

  /** In the loop: some entries have moved, and the rest is as the oracle decides. */
  ghost predicate Midway(oracle: Oracle, all: Moves, source: Contents, destination: Contents, moved: set<Name>, next: nat,
                         source': Contents, destination': Contents) {
    && Moved(source, destination, moved, source', destination')
    && Continues(all, MoveEntries(oracle, next, |source'|), |moved|)
  }

  lemma MidwayStarts(oracle: Oracle, c: nat, source: Contents, destination: Contents)
    ensures Midway(oracle, MoveEntries(oracle, c, |source|), source, destination, {}, c, source, destination)
  {
    hide MoveEntries;
    MoveNone(source, destination);
  }

  lemma MidwayMoves(oracle: Oracle, all: Moves, source: Contents, destination: Contents, moved: set<Name>, next: nat,
                    source': Contents, destination': Contents, name: Name)
    requires Midway(oracle, all, source, destination, moved, next, source', destination')
    requires name in source' && next !in oracle && next + 1 !in oracle
    ensures Midway(oracle, all, source, destination, moved + {name}, next + 2, source' - {name}, destination'[name := source'[name]])
  {
    hide Moved, MoveEntries;
    OneLess(source', name);
    MoveEntriesStep(oracle, next, |source'|);
    MoveOne(source, destination, moved, source', destination', name);
  }

  lemma MidwayStops(oracle: Oracle, all: Moves, source: Contents, destination: Contents, moved: set<Name>, next: nat,
                    source': Contents, destination': Contents)
    requires Midway(oracle, all, source, destination, moved, next, source', destination')
    ensures Moved(source, destination, moved, source', destination')
    ensures next in oracle ==> all == Moves(false, next + 1, |moved|)
    ensures source'.Keys == {} ==> moved == source.Keys && (next !in oracle ==> all == Moves(true, next + 1, |moved|))
    ensures source'.Keys != {} && next !in oracle && next + 1 in oracle ==> all == Moves(false, next + 2, |moved|)
  {
    hide Moved, MoveEntries;
    MoveEntriesStep(oracle, next, |source'|);
    assert |source'| == |source'.Keys|;
    if source'.Keys == {} {
      MovedAll(source, destination, moved, source', destination');
    }
  }

  predicate Continues(all: Moves, rest: Moves, done: nat) {
    all == Moves(rest.ok, rest.next, rest.done + done)
  }

  lemma MoveEntriesStep(oracle: Oracle, c: nat, n: nat)
    ensures c in oracle ==> MoveEntries(oracle, c, n) == Moves(false, c + 1, 0)
    ensures c !in oracle && n == 0 ==> MoveEntries(oracle, c, n) == Moves(true, c + 1, 0)
    ensures c !in oracle && n > 0 && c + 1 in oracle ==> MoveEntries(oracle, c, n) == Moves(false, c + 2, 0)
    ensures c !in oracle && n > 0 && c + 1 !in oracle ==> Continues(MoveEntries(oracle, c, n), MoveEntries(oracle, c + 2, n - 1), 1)
  {}

  lemma OneLess(entries: Contents, name: Name)
    requires name in entries
    ensures |entries - {name}| == |entries| - 1
  {
    assert (entries - {name}).Keys == entries.Keys - {name};
  }

  /** `clear_directory_contents`: removing a directory may fail half-way through it. */
  method ClearDirectoryContents(oracle: Oracle, c: nat, folder: Folder) returns (ok: bool, next: nat)
    modifies folder`entries
    ensures Trial(ok, next) == Calls(oracle, c, 3 * |old(folder.entries)| + 2)
    ensures ok ==> folder.entries == map[]
    ensures folder.entries.Keys <= old(folder.entries).Keys
  {
    ghost var all := Calls(oracle, c, 3 * |folder.entries| + 2);
    if c in oracle { return false, c + 1; }
    next := c + 1;
    var unread := folder.entries.Keys;
    while unread != {}
      invariant all == Calls(oracle, next, 3 * |folder.entries| + 1)
      invariant unread == folder.entries.Keys
      invariant folder.entries.Keys <= old(folder.entries).Keys
      decreases |unread|
    {
      assert |folder.entries.Keys| > 0;
      ThreeCalls(oracle, next, 3 * |folder.entries| + 1);
      if next in oracle { return false, next + 1; }
      var name :| name in unread;
      if next + 1 in oracle { return false, next + 2; }
      if next + 2 in oracle {
        if folder.entries[name].Directory? {
          var rest: Entry := *;
          folder.entries := folder.entries[name := rest];
        }
        return false, next + 3;
      }
      OneLess(folder.entries, name);
      folder.entries := folder.entries - {name};
      next, unread := next + 3, unread - {name};
    }
    return next !in oracle, next + 1;
  }

  lemma ThreeCalls(oracle: Oracle, c: nat, n: nat)
    requires n >= 3
    ensures Calls(oracle, c, n) == if c in oracle then Trial(false, c + 1)
      else if c + 1 in oracle then Trial(false, c + 2)
      else if c + 2 in oracle then Trial(false, c + 3)
      else Calls(oracle, c + 3, n - 3)
  {
    assert c !in oracle ==> Calls(oracle, c, n) == Calls(oracle, c + 1, n - 1);
    assert c !in oracle && c + 1 !in oracle ==> Calls(oracle, c + 1, n - 1) == Calls(oracle, c + 2, n - 2);
  }

  /** All of the archive, or all of the original; a failed rollback never mixes
      the two, but `stranded`, which `previous` still held when it was removed,
      is gone; only a failed clear can leave entries of both, and then all of
      the original but `stranded`. */
  ghost predicate Accounted(outcome: Outcome, original: Contents, archive: Contents, after: Contents, stranded: set<Name>) {
    match outcome
    case Restored => after == archive
    case Failed => after == original
    case FailedRollbackToo => stranded <= original.Keys && after == original - stranded
    case FailedClearToo =>
      && stranded <= original.Keys && original.Keys - stranded <= after.Keys <= archive.Keys + (original.Keys - stranded)
      && forall name :: name in original && name !in stranded ==> after[name] == original[name]
  }

  /** `restore_transactionally`.  `staging` and `previous` are names no one else
      uses; what the oracle decides does not depend on the order of the listings. */
  method RestoreTransactionally(oracle: Oracle, c: nat, target: Folder, staging: Folder, previous: Folder, archive: Contents)
    returns (outcome: Outcome, next: nat, ghost stranded: set<Name>)
    requires target != staging && target != previous && staging != previous
    requires !staging.present && staging.entries == map[] && !previous.present && previous.entries == map[]
    requires !target.present ==> target.entries == map[]
    modifies target, staging, previous
    ensures Fate(outcome, |stranded|, next) == Restoring(oracle, c, old(target.present), |old(target.entries)|, |archive|)
    ensures target.present == (old(target.present) || outcome == Restored)
    ensures Accounted(outcome, old(target.entries), archive, target.entries, stranded)
  {
    hide Replacing;
    // the parent directory, the staging directory and the extraction into it
    if c in oracle { return Failed, c + 1, {}; }
    if c + 1 in oracle { return Failed, c + 2, {}; }
    staging.Create();
    if c + 2 in oracle {
      staging.Discard();
      return Failed, c + 3, {};
    }
    staging.entries := archive;
    if !target.present {
      if c + 3 in oracle { return Failed, c + 4, {}; }
      target.present, target.entries := true, staging.entries;
      staging.present, staging.entries := false, map[];
      return Restored, c + 4, {};
    }
    if c + 3 in oracle { return Failed, c + 4, {}; }
    previous.Create();
    outcome, next, stranded := ReplaceContents(oracle, c + 4, target, staging, previous);
  }

  /** The part in which an existing directory's contents are moved aside and the staged ones in. */
  method ReplaceContents(oracle: Oracle, c: nat, target: Folder, staging: Folder, previous: Folder)
    returns (outcome: Outcome, next: nat, ghost stranded: set<Name>)
    requires target != staging && target != previous && staging != previous
    requires target.present && staging.present && previous.present && previous.entries == map[]
    modifies target, staging, previous
    ensures Fate(outcome, |stranded|, next) == Replacing(oracle, c, |old(target.entries)|, |old(staging.entries)|)
    ensures target.present && Accounted(outcome, old(target.entries), old(staging.entries), target.entries, stranded)
  {
    hide MoveCalls, Calls, Moved, Accounted, Replacing;
    ghost var original, archive := target.entries, staging.entries;
    ReplacingUnfolds(oracle, c, |original|, |archive|);
    var aside, c1, gone := MoveDirectoryContents(oracle, c, target, previous);
    ghost var left, held := target.entries, previous.entries;
    HeldAside(original, gone, left, held);
    if !aside {
      var rolledBack, c2, back := MoveDirectoryContents(oracle, c1, previous, target);
      stranded := previous.entries.Keys;
      Stranding(original, archive, gone, left, held, back, previous.entries, target.entries, rolledBack);
      previous.Discard();
      staging.Discard();
      return if rolledBack then Failed else FailedRollbackToo, c2, stranded;
    }
    var activated, c3, placed := MoveDirectoryContents(oracle, c1, staging, target);
    HeldAside(archive, placed, staging.entries, target.entries);
    if activated {
      Activated(original, archive);
      staging.Discard();
      previous.Discard();
      return Restored, c3, {};
    }
    outcome, next, stranded := UndoActivation(oracle, c3, target, previous, original, archive);
    staging.Discard();
    previous.Discard();
  }

  /** Clearing a partial activation and moving the original contents back. */
  method UndoActivation(oracle: Oracle, c: nat, target: Folder, previous: Folder, ghost original: Contents, ghost archive: Contents)
    returns (outcome: Outcome, next: nat, ghost stranded: set<Name>)
    requires target != previous && target.present && previous.present
    requires previous.entries == original && target.entries.Keys <= archive.Keys
    modifies target, previous`entries
    ensures Fate(outcome, |stranded|, next) == Undoing(oracle, c, |original|, |old(target.entries)|)
    ensures target.present && Accounted(outcome, original, archive, target.entries, stranded)
  {
    hide MoveCalls, Calls, Moved, Accounted;
    var cleared, c1 := ClearDirectoryContents(oracle, c, target);
    ghost var remains := target.entries;
    var rolledBack, c2, back := MoveDirectoryContents(oracle, c1, previous, target);
    stranded := previous.entries.Keys;
    Undone(original, archive, remains, back, previous.entries, target.entries, cleared, rolledBack);
    return if !cleared then FailedClearToo else if rolledBack then Failed else FailedRollbackToo, c2, stranded;
  }

  lemma Activated(original: Contents, archive: Contents)
    ensures Accounted(Restored, original, archive, archive, {})
  {}

  /** What an empty directory holds after entries have been moved into it. */
  lemma HeldAside(original: Contents, names: set<Name>, left: Contents, held: Contents)
    requires Moved(original, map[], names, left, held)
    ensures |held| == |names| && held.Keys <= original.Keys
    ensures names == original.Keys ==> left == map[] && held == original
  {
    assert held.Keys == names;
    assert |held| == |held.Keys|;
  }

  lemma StrandedCount(held: Contents, left: Contents, back: set<Name>, held': Contents, target: Contents)
    requires Moved(held, left, back, held', target)
    ensures |held'.Keys| == |held| - |back|
  {
    assert held'.Keys == held.Keys - back;
    assert |held| == |held.Keys|;
  }

  lemma Stranding(original: Contents, archive: Contents, names: set<Name>, left: Contents, held: Contents, back: set<Name>,
                  held': Contents, target: Contents, rolledBack: bool)
    requires Moved(original, map[], names, left, held) && Moved(held, left, back, held', target)
    requires rolledBack ==> back == held.Keys
    ensures Accounted(if rolledBack then Failed else FailedRollbackToo, original, archive, target, held'.Keys)
    ensures |held'.Keys| == |names| - |back|
  {
    MovingBackRestores(original, names, left, held, back, held', target);
    HeldAside(original, names, left, held);
    StrandedCount(held, left, back, held', target);
  }

  lemma Undone(original: Contents, archive: Contents, remains: Contents, back: set<Name>, held': Contents, target: Contents,
               cleared: bool, rolledBack: bool)
    requires Moved(original, remains, back, held', target) && remains.Keys <= archive.Keys
    requires (cleared ==> remains == map[]) && (rolledBack ==> back == original.Keys)
    ensures Accounted(if !cleared then FailedClearToo else if rolledBack then Failed else FailedRollbackToo,
                      original, archive, target, held'.Keys)
    ensures |held'.Keys| == |original| - |back|
  {
    StrandedCount(original, remains, back, held', target);
    if cleared {
      MovedBack(original, back, held', target);
      if rolledBack { assert original - held'.Keys == original; }
    } else {
      MovedOnto(original, archive, remains, back, held', target);
    }
    hide Moved;
  }

  lemma MovedBack(original: Contents, back: set<Name>, held': Contents, target: Contents)
    requires Moved(original, map[], back, held', target)
    ensures held'.Keys <= original.Keys && target == original - held'.Keys
    ensures back == original.Keys ==> held' == map[]
  {
    assert target.Keys == back;
  }

  lemma MovedOnto(original: Contents, archive: Contents, remains: Contents, back: set<Name>, held': Contents, target: Contents)
    requires Moved(original, remains, back, held', target) && remains.Keys <= archive.Keys
    ensures Accounted(FailedClearToo, original, archive, target, held'.Keys)
  {
    assert original.Keys - held'.Keys == back;
    assert target.Keys == remains.Keys + back;
  }
}
