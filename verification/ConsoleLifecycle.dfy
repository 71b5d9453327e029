/** Inventory ownership of the console hub (src/grpc/services/console/lifecycle.rs).

    The functions are the sections that run under the lifecycle lock, on a value
    state; `ConsoleInventory` is the locked object whose methods update it in
    place.  `BootstrapMerge` says what the sections add up to over a whole run. */
module ConsoleLifecycle {
  import opened Wrappers
  import opened ConsoleHistory

  datatype Lifecycle = Lifecycle(
    desired: set<Id>, readers: map<Id, nat>, additions: set<Id>, removals: set<Id>, initialized: bool)

  const INITIAL: Lifecycle := Lifecycle({}, map[], {}, {}, false)

  datatype Refusal = InvalidId | NotAssigned | RemovedBeforeBootstrap

  /** Path components the agent accepts as server ids (src/core/paths.rs). */
  predicate ValidId(id: Id) {
    id != "" && id != "." && id != ".." && '/' !in id && '\\' !in id && '\0' !in id
  }

  // ---- the sections ----------------------------------------------------------------

  function RecordAddition(l: Lifecycle, id: Id): Lifecycle {
    if l.initialized then l else l.(removals := l.removals - {id}, additions := l.additions + {id})
  }

  /** `track_server`; `refresh_server` changes the inventory in the same way. */
  function Track(l: Lifecycle, id: Id): Lifecycle {
    if !ValidId(id) then l else
      var recorded := RecordAddition(l, id);
      recorded.(desired := recorded.desired + {id})
  }

  /** The part of `remove` that runs before the channel and history are dropped. */
  function Remove(l: Lifecycle, id: Id): Lifecycle {
    var recorded := if l.initialized then l
                    else l.(additions := l.additions - {id}, removals := l.removals + {id});
    recorded.(desired := recorded.desired - {id}, readers := recorded.readers - {id})
  }

  function Inventory(ids: seq<Id>): set<Id> { set id | id in ids }

  predicate AllValid(ids: seq<Id>) { forall id :: id in ids ==> ValidId(id) }

  /** What a first successful synchronize makes of the snapshot. */
  function Merged(l: Lifecycle, ids: seq<Id>): set<Id> { Inventory(ids) + l.additions - l.removals }

  function Withdrawn(l: Lifecycle, ids: seq<Id>): set<Id> {
    if l.initialized || !AllValid(ids) then {} else l.desired - Merged(l, ids)
  }

  function Synchronize(l: Lifecycle, ids: seq<Id>): Lifecycle {
    if l.initialized || !AllValid(ids) then l else
      Lifecycle(Merged(l, ids), l.readers - Withdrawn(l, ids), {}, {}, true)
  }

  /** `validate_subscription`: admission, and before bootstrap a provisional assignment. */
  function ValidateSubscription(l: Lifecycle, id: Id): Result<Lifecycle, Refusal> {
    if l.initialized && id !in l.desired then Failure(NotAssigned)
    else if !l.initialized && id in l.removals then Failure(RemovedBeforeBootstrap)
    else if !l.initialized then Success(l.(desired := l.desired + {id}))
    else Success(l)
  }

  /** `publish` lets a supervisor line through unless the server is known to be gone. */
  predicate PublishAdmitted(l: Lifecycle, id: Id) {
    if l.initialized then id in l.desired else id !in l.removals
  }

  function AttachRequiresInspection(l: Lifecycle, id: Id): Result<bool, Refusal> {
    if l.initialized && id !in l.desired then Failure(NotAssigned)
    else if !l.initialized && id in l.removals then Failure(RemovedBeforeBootstrap)
    else Success(id !in l.desired)
  }

  /** The three admission decisions agree: a viewer is refused an attach exactly
      when it is refused a subscription, exactly when a publish is swallowed. */
  lemma AdmissionsAgree(l: Lifecycle, id: Id)
    ensures AttachRequiresInspection(l, id).Success? <==> ValidateSubscription(l, id).Success?
    ensures ValidateSubscription(l, id).Success? <==> PublishAdmitted(l, id)
    ensures ValidateSubscription(l, id).Success? ==> id in ValidateSubscription(l, id).value.desired
  {}

  // ---- invariant --------------------------------------------------------------------

  predicate LifecycleOk(l: Lifecycle) {
    && l.additions !! l.removals
    && (l.initialized ==> l.additions == {} && l.removals == {})
    && l.additions <= l.desired && l.removals !! l.desired
    && l.readers.Keys <= l.desired
  }

  datatype Op = Added(id: Id) | Dropped(id: Id) | Subscribed(id: Id) | Synced(ids: seq<Id>)

  function Apply(l: Lifecycle, op: Op): Lifecycle {
    match op
    case Added(id) => Track(l, id)
    case Dropped(id) => Remove(l, id)
    case Subscribed(id) => if ValidateSubscription(l, id).Success? then ValidateSubscription(l, id).value else l
    case Synced(ids) => Synchronize(l, ids)
  }

  lemma SectionsKeepLifecycleOk(l: Lifecycle, op: Op)
    requires LifecycleOk(l)
    ensures LifecycleOk(Apply(l, op))
    ensures Apply(l, op).readers.Keys <= l.readers.Keys
    ensures forall id :: id in Apply(l, op).readers ==> Apply(l, op).readers[id] == l.readers[id]
    ensures l.initialized ==> Apply(l, op).initialized
  {}

  // ---- whole runs ---------------------------------------------------------------------

  function Run(ops: seq<Op>): Lifecycle {
    if ops == [] then INITIAL else Apply(Run(ops[..|ops| - 1]), ops[|ops| - 1])
  }

  /** The last direct operation on an id: true for an addition, false for a removal. */
  function LastDirect(ops: seq<Op>, id: Id): Option<bool> {
    if ops == [] then None else
      match ops[|ops| - 1]
      case Added(added) => if added == id && ValidId(id) then Some(true) else LastDirect(ops[..|ops| - 1], id)
      case Dropped(dropped) => if dropped == id then Some(false) else LastDirect(ops[..|ops| - 1], id)
      case _ => LastDirect(ops[..|ops| - 1], id)
  }

  /** The snapshot of the first synchronize whose ids were all valid. */
  function FirstSnapshot(ops: seq<Op>): Option<set<Id>> {
    if ops == [] then None else
      var earlier := FirstSnapshot(ops[..|ops| - 1]);
      match ops[|ops| - 1]
      case Synced(ids) => if earlier.None? && AllValid(ids) then Some(Inventory(ids)) else earlier
      case _ => earlier
  }

  /** Whatever the interleaving, the merged inventory is the snapshot overruled
      by the last direct operation on each id. */
  lemma {:induction false} BootstrapMerge(ops: seq<Op>, id: Id)
    ensures LifecycleOk(Run(ops))
    ensures Run(ops).initialized <==> FirstSnapshot(ops).Some?
    ensures FirstSnapshot(ops).Some? ==>
      (id in Run(ops).desired <==>
        match LastDirect(ops, id) case Some(added) => added case None => id in FirstSnapshot(ops).value)
    ensures FirstSnapshot(ops).None? ==>
      && (id in Run(ops).additions <==> LastDirect(ops, id) == Some(true))
      && (id in Run(ops).removals <==> LastDirect(ops, id) == Some(false))
  {
    if ops != [] {
      BootstrapMerge(ops[..|ops| - 1], id);
      SectionsKeepLifecycleOk(Run(ops[..|ops| - 1]), ops[|ops| - 1]);
    }
  }

  /** An admitted attach asks Docker exactly about the servers that nothing has
      named yet: before the first snapshot, those without an addition and without
      a subscription since their last removal; after it, none. */
  lemma {:induction false} InspectionIsAsked(ops: seq<Op>, id: Id)
    ensures var answer := AttachRequiresInspection(Run(ops), id);
      && (answer.Success? <==> Known(FirstSnapshot(ops), LastDirect(ops, id), id))
      && (answer == Success(true) <==> FirstSnapshot(ops).None? && LastDirect(ops, id) == None && Subscribed(id) !in ops)
  {
    hide FirstSnapshot, LastDirect, Run;
    BootstrapMerge(ops, id);
    if FirstSnapshot(ops).None? { NamedBeforeSnapshot(ops, id); }
  }

  /** Not known to be gone: the last direct operation decides, then the snapshot. */
  predicate Known(snapshot: Option<set<Id>>, direct: Option<bool>, id: Id) {
    match direct
    case Some(added) => added
    case None => snapshot.None? || id in snapshot.value
  }

  /** Before the first snapshot a server is in the inventory if it was added, or
      if someone subscribed to it and it was never removed. */
  lemma {:induction false} NamedBeforeSnapshot(ops: seq<Op>, id: Id)
    requires FirstSnapshot(ops).None?
    ensures LastDirect(ops, id) == Some(true) ==> id in Run(ops).desired
    ensures LastDirect(ops, id) == None ==> (id in Run(ops).desired <==> Subscribed(id) in ops)
    decreases |ops|
  {
    if ops != [] {
      var init := ops[..|ops| - 1];
      BootstrapMerge(init, id);
      BootstrapMerge(ops, id);
      NamedBeforeSnapshot(init, id);
      assert ops == init + [ops[|ops| - 1]];
    }
  }

  /** A synchronize with an invalid id changes nothing; neither does any after the first success. */
  lemma IdleSynchronize(l: Lifecycle, ids: seq<Id>)
    ensures l.initialized || !AllValid(ids) ==> Synchronize(l, ids) == l && Withdrawn(l, ids) == {}
    ensures Synchronize(Synchronize(l, ids), ids) == Synchronize(l, ids)
  {}

  // ---- the locked object ------------------------------------------------------------------

  /** The inventory behind the lifecycle lock.  `stopped` holds the reader tasks
      whose `active` flag has been cleared and which have been aborted. */
  class ConsoleInventory {
    var desired: set<Id>
    var readers: map<Id, nat>
    var additions: set<Id>
    var removals: set<Id>
    var initialized: bool
    var stopped: set<nat>

    ghost function State(): Lifecycle
      reads this
    {
      Lifecycle(desired, readers, additions, removals, initialized)
    }

    constructor ()
      ensures State() == INITIAL && stopped == {}
    {
      desired, readers, additions, removals, initialized, stopped := {}, map[], {}, {}, false, {};
    }

    method StopReader(id: Id)
      modifies this`readers, this`stopped
      ensures readers == old(readers) - {id}
      ensures stopped == old(stopped) + if id in old(readers) then {old(readers)[id]} else {}
    {
      if id in readers {
        stopped := stopped + {readers[id]};
        readers := readers - {id};
      } else {
        assert readers - {id} == readers;
      }
    }

    method SynchronizeServers(ids: seq<Id>) returns (result: Result<set<Id>, Refusal>)
      modifies this
      ensures State() == Synchronize(old(State()), ids)
      ensures result == if old(initialized) then Success({})
                        else if AllValid(ids) then Success(Withdrawn(old(State()), ids))
                        else Failure(InvalidId)
      ensures stopped == old(stopped)
        + set id | id in Withdrawn(old(State()), ids) && id in old(readers) :: old(readers)[id]
    {
      if initialized {
        return Success({});
      }
      var validated := ValidateInventory(ids);
      if validated.Failure? {
        return Failure(validated.error);
      }
      var merged := validated.value + additions - removals;
      additions, removals := {}, {};
      var removed := desired - merged;
      var pending := removed;
      while pending != {}
        invariant pending <= removed && additions == {} && removals == {}
        invariant readers == old(readers) - (removed - pending)
        invariant stopped == old(stopped) + set id | id in removed - pending && id in old(readers) :: old(readers)[id]
        decreases pending
      {
        var id :| id in pending;
        ghost var was := pending;
        StopReader(id);
        pending := pending - {id};
        assert removed - pending == (removed - was) + {id};
        assert readers == old(readers) - (removed - pending);
      }
      assert removed - pending == removed == Withdrawn(old(State()), ids);
      assert readers == old(State()).readers - removed;
      desired := merged;
      initialized := true;
      return Success(removed);
    }

    static method ValidateInventory(ids: seq<Id>) returns (result: Result<set<Id>, Refusal>)
      ensures result == if AllValid(ids) then Success(Inventory(ids)) else Failure(InvalidId)
    {
      var accepted: set<Id> := {};
      for i := 0 to |ids|
        invariant accepted == Inventory(ids[..i]) && AllValid(ids[..i])
      {
        if !ValidId(ids[i]) {
          assert ids[i] in ids;
          return Failure(InvalidId);
        }
        accepted := accepted + {ids[i]};
        assert ids[..i + 1] == ids[..i] + [ids[i]];
      }
      assert ids[..|ids|] == ids;
      return Success(accepted);
    }

    method TrackServer(id: Id) returns (result: Result<(), Refusal>)
      modifies this
      ensures State() == Track(old(State()), id) && stopped == old(stopped)
      ensures result.Success? <==> ValidId(id)
    {
      if !ValidId(id) {
        return Failure(InvalidId);
      }
      if !initialized {
        removals := removals - {id};
        additions := additions + {id};
      }
      desired := desired + {id};
      return Success(());
    }

    method BeginRemove(id: Id)
      modifies this
      ensures State() == Remove(old(State()), id)
      ensures stopped == old(stopped) + if id in old(readers) then {old(readers)[id]} else {}
    {
      if !initialized {
        additions := additions - {id};
        removals := removals + {id};
      }
      desired := desired - {id};
      StopReader(id);
    }

    method AdmitSubscription(id: Id) returns (result: Result<(), Refusal>)
      modifies this
      ensures stopped == old(stopped)
      ensures match ValidateSubscription(old(State()), id)
        case Success(admitted) => State() == admitted && result == Success(())
        case Failure(refusal) => State() == old(State()) && result == Failure(refusal)
    {
      if initialized && id !in desired {
        return Failure(NotAssigned);
      }
      if !initialized {
        if id in removals {
          return Failure(RemovedBeforeBootstrap);
        }
        desired := desired + {id};
      }
      return Success(());
    }
  }
}
