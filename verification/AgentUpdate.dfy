/** Activating, rolling back and committing an agent update (src/runtime/update.rs).

    A run may stop at any point: a call fails, or the process dies between two
    of its effects on the file system.  A copy and a write are two effects each
    (the file is there but incomplete, then it is complete); a rename is one. */
module AgentUpdate {
  import opened Machine
  import opened Wrappers

  type Binary = seq<byte>

  /** `activation-state.json`; one that this agent wrote names `previous-agent`. */
  datatype StateFile = NoState | Unreadable | Recorded

  /** `pending-artifact`: missing, blank, naming a file that is not in the
      staging directory, or naming the staged artifact. */
  datatype Marker = NoMarker | Blank | Outside | Staged

  datatype Files = Files(
    exe: Option<Binary>,
    previousTemp: Option<Binary>,
    previous: Option<Binary>,
    failed: Option<Binary>,
    state: StateFile,
    marker: Marker,
    pending: Option<Binary>)

  datatype Outcome = NothingPending | Activated | RolledBack | Error

  // ---- effects and plans ------------------------------------------------------------

  datatype Effect =
    | StartCopy(partial: Binary) | EndCopy | KeepPrevious | StartState | EndState | Replace | RemoveMarker
    | SetAside | PutPrevious | PutBack | RemoveState | RemovePrevious

  function Apply(f: Files, effect: Effect): Files {
    match effect
    case StartCopy(partial) => f.(previousTemp := Some(partial))
    case EndCopy => f.(previousTemp := f.exe)
    case KeepPrevious => f.(previous := f.previousTemp, previousTemp := None)
    case StartState => f.(state := Unreadable)
    case EndState => f.(state := Recorded)
    case Replace => f.(exe := f.pending, pending := None)
    case RemoveMarker => f.(marker := NoMarker)
    case SetAside => f.(failed := f.exe, exe := None)
    case PutPrevious => f.(exe := f.previous, previous := None)
    case PutBack => f.(exe := f.failed, failed := None)
    case RemoveState => f.(state := NoState)
    case RemovePrevious => f.(previous := None)
  }

  function ApplyAll(f: Files, effects: seq<Effect>): Files
    decreases |effects|
  {
    if effects == [] then f else ApplyAll(Apply(f, effects[0]), effects[1..])
  }

  predicate CanRollBack(f: Files) {
    f.state == Recorded && f.previous.Some? && f.exe.Some?
  }

  predicate CanActivate(f: Files) {
    f.marker == Staged && f.pending.Some? && f.exe.Some?
  }

  /** The effects of `rollback_at`, and of one that cannot put the previous
      binary in place and puts the failed one back. */
  function RollBackPlan(f: Files, undone: bool): seq<Effect> {
    if !CanRollBack(f) then [] else if undone then [SetAside, PutBack] else [SetAside, PutPrevious, RemoveState]
  }

  /** The effects of `activate_at`. */
  function ActivatePlan(f: Files, partial: Binary, undone: bool): seq<Effect> {
    if f.marker == NoMarker then RollBackPlan(f, undone)
    else if !CanActivate(f) then []
    else [StartCopy(partial), EndCopy, KeepPrevious, StartState, EndState, Replace, RemoveMarker]
  }

  /** One run of `activate_at` or `rollback_at`, stopped after `stop` effects. */
  datatype Run = Run(activate: bool, partial: Binary, undone: bool, stop: nat)

  function Plan(f: Files, run: Run): seq<Effect> {
    if run.activate then ActivatePlan(f, run.partial, run.undone) else RollBackPlan(f, run.undone)
  }

  function After(f: Files, run: Run): Files {
    var plan := Plan(f, run);
    ApplyAll(f, if run.stop < |plan| then plan[..run.stop] else plan)
  }

  /** One run of `commit_healthy_at`, stopped after `stop` effects; that the
      previous binary could not be removed is ignored. */
  datatype Commit = Commit(removed: bool, stop: nat)

  function CommitPlan(f: Files, removed: bool): seq<Effect> {
    if f.state != Recorded then [] else if removed then [RemovePrevious, RemoveState] else [RemoveState]
  }

  function AfterCommit(f: Files, run: Commit): Files {
    var plan := CommitPlan(f, run.removed);
    ApplyAll(f, if run.stop < |plan| then plan[..run.stop] else plan)
  }

  function AfterAll(f: Files, runs: seq<Run>): Files
    decreases |runs|
  {
    if runs == [] then f else AfterAll(After(f, runs[0]), runs[1..])
  }

  /** The previous binary is back, the failed one set aside, and the record gone. */
  function Restored(f: Files): Files {
    f.(exe := f.previous, previous := None, failed := f.exe, state := NoState)
  }

  /** The staged binary is in place, the old one kept and recorded, and the marker gone. */
  function Installed(f: Files): Files {
    f.(exe := f.pending, pending := None, previous := f.exe, previousTemp := None, state := Recorded, marker := NoMarker)
  }

  // ---- the code ---------------------------------------------------------------------------

  class Installation {
    var files: Files

    constructor (initial: Files)
      ensures files == initial
    {
      files := initial;
    }

    /** One effect of the file system; it may be the one that does not happen.
        `allowed` is false where the environment is not to interfere. */
    method Do(effect: Effect, interfere: bool) returns (ok: bool)
      modifies this
      ensures files == if ok then Apply(old(files), effect) else old(files)
      ensures !interfere ==> ok
    {
      ok := *;
      if ok || !interfere {
        files := Apply(files, effect);
        ok := true;
      }
    }

    /** `rollback_at`.  Whatever happens is a prefix of one of its plans; left
        alone it fails exactly where its guards say so. */
    method RollBackAt(interfere: bool) returns (outcome: Outcome, ghost run: Run)
      modifies this
      ensures !run.activate && files == After(old(files), run)
      ensures outcome == NothingPending <==> old(files).state == NoState
      ensures outcome == RolledBack ==> CanRollBack(old(files)) && !run.undone && run.stop == 3
      ensures outcome != Activated
      ensures outcome == RolledBack ==> files == Restored(old(files))
      ensures !interfere ==> (outcome == RolledBack <==>
        old(files).state == Recorded && old(files).previous.Some? && old(files).exe.Some?)
      ensures outcome == NothingPending || (outcome == Error && !interfere) ==> files == old(files)
    {
      ghost var before := files;
      run := Run(false, [], false, 0);
      assert ApplyAll(files, []) == files;
      if files.state == NoState { return NothingPending, run; }
      if files.state == Unreadable || files.previous.None? || files.exe.None? { return Error, run; }
      ghost var plan := [SetAside, PutPrevious, RemoveState];
      assert RollBackPlan(before, false) == plan;
      Prefixes3(before, plan);
      var ok := Do(SetAside, interfere);
      if !ok { return Error, run; }
      ok := Do(PutPrevious, interfere);
      if !ok {
        var undone := Do(PutBack, interfere);
        Prefixes2(before, [SetAside, PutBack]);
        return Error, if undone then Run(false, [], true, 2) else Run(false, [], true, 1);
      }
      ok := Do(RemoveState, interfere);
      if !ok { return Error, Run(false, [], false, 2); }
      return RolledBack, Run(false, [], false, 3);
    }

    /** `activate_at`. */
    method ActivateAt(partial: Binary, interfere: bool) returns (outcome: Outcome, ghost run: Run)
      modifies this
      ensures run.activate && files == After(old(files), run)
      ensures outcome == NothingPending <==> old(files).marker == NoMarker && old(files).state == NoState
      ensures outcome == Activated ==> old(files).marker != NoMarker && CanActivate(old(files)) && run.stop == 7
      ensures outcome == RolledBack ==> old(files).marker == NoMarker && CanRollBack(old(files)) && !run.undone && run.stop == 3
      ensures outcome == Activated ==> files == Installed(old(files))
      ensures outcome == RolledBack ==> files == Restored(old(files))
      ensures !interfere ==> (outcome == Activated <==>
        old(files).marker == Staged && old(files).pending.Some? && old(files).exe.Some?)
      ensures !interfere ==> (outcome == Error <==> Stuck(old(files)))
      ensures outcome == NothingPending || (outcome == Error && !interfere) ==> files == old(files)
    {
      ghost var before := files;
      run := Run(true, partial, false, 0);
      assert ApplyAll(files, []) == files;
      if files.marker == NoMarker {
        if files.state != NoState {
          outcome, run := RollBackAt(interfere);
          run := run.(activate := true, partial := partial);
          return outcome, run;
        }
        return NothingPending, run;
      }
      if files.marker != Staged || files.pending.None? || files.exe.None? { return Error, run; }
      ghost var plan := [StartCopy(partial), EndCopy, KeepPrevious, StartState, EndState, Replace, RemoveMarker];
      assert ActivatePlan(before, partial, false) == plan;
      Prefixes7(before, plan);
      var ok := Do(StartCopy(partial), interfere);
      if !ok { return Error, run; }
      ok := Do(EndCopy, interfere);
      if !ok { return Error, run.(stop := 1); }
      ok := Do(KeepPrevious, interfere);
      if !ok { return Error, run.(stop := 2); }
      ok := Do(StartState, interfere);
      if !ok { return Error, run.(stop := 3); }
      ok := Do(EndState, interfere);
      if !ok { return Error, run.(stop := 4); }
      ok := Do(Replace, interfere);
      if !ok { return Error, run.(stop := 5); }
      ok := Do(RemoveMarker, interfere);
      if !ok { return Error, run.(stop := 6); }
      return Activated, run.(stop := 7);
    }

    /** `commit_healthy_at`.  Whatever happens is a prefix of one of its plans. */
    method CommitHealthyAt(interfere: bool) returns (ok: bool, ghost run: Commit)
      modifies this
      ensures files == AfterCommit(old(files), run)
      ensures ok <==> old(files).state == NoState || (old(files).state == Recorded && run.stop == |CommitPlan(old(files), run.removed)|)
      ensures old(files).state == NoState ==> ok && files == old(files)
      ensures old(files).state == Unreadable ==> !ok && files == old(files)
      ensures files.(previous := None, state := NoState) == old(files).(previous := None, state := NoState)
      ensures files.state == NoState || files.state == old(files).state
      ensures ok ==> files.state == NoState
      ensures !interfere && old(files).state == Recorded ==> ok && files.previous == None
    {
      run := Commit(false, 0);
      assert ApplyAll(files, []) == files;
      if files.state == NoState { return true, run; }
      if files.state == Unreadable { return false, run; }
      Prefixes2(files, [RemovePrevious, RemoveState]);
      OneEffect(files, RemoveState);
      var removed := Do(RemovePrevious, interfere);
      ok := Do(RemoveState, interfere);
      run := Commit(removed, (if removed then 1 else 0) + if ok then 1 else 0);
    }
  }

  lemma OneEffect(f: Files, effect: Effect)
    ensures ApplyAll(f, [effect]) == Apply(f, effect)
    ensures [effect][..0] == []
  {
    assert [effect][1..] == [];
  }

  lemma Prefixes2(f: Files, plan: seq<Effect>)
    requires |plan| == 2
    ensures ApplyAll(f, plan[..1]) == Apply(f, plan[0])
    ensures ApplyAll(f, plan) == Apply(Apply(f, plan[0]), plan[1])
  {
    AppendEffect(f, plan, 0);
    AppendEffect(f, plan, 1);
    assert plan[..0] == [] && plan[..2] == plan;
  }

  lemma Prefixes3(f: Files, plan: seq<Effect>)
    requires |plan| == 3
    ensures ApplyAll(f, plan[..0]) == f
    ensures ApplyAll(f, plan[..1]) == Apply(f, plan[0])
    ensures ApplyAll(f, plan[..2]) == Apply(Apply(f, plan[0]), plan[1])
    ensures ApplyAll(f, plan) == Apply(Apply(Apply(f, plan[0]), plan[1]), plan[2])
  {
    AppendEffect(f, plan, 0);
    AppendEffect(f, plan, 1);
    AppendEffect(f, plan, 2);
    assert plan[..3] == plan;
  }

  lemma {:induction false} AppendEffect(f: Files, effects: seq<Effect>, k: nat)
    requires k < |effects|
    ensures ApplyAll(f, effects[..k + 1]) == Apply(ApplyAll(f, effects[..k]), effects[k])
    decreases k
  {
    if k == 0 {
      assert effects[..1][1..] == [];
    } else {
      assert effects[..k + 1][1..] == effects[1..][..k] && effects[..k][1..] == effects[1..][..k - 1];
      AppendEffect(Apply(f, effects[0]), effects[1..], k - 1);
    }
  }

  lemma Prefixes7(f: Files, plan: seq<Effect>)
    requires |plan| == 7
    ensures ApplyAll(f, plan[..0]) == f
    ensures ApplyAll(f, plan[..1]) == Apply(f, plan[0])
    ensures ApplyAll(f, plan[..2]) == Apply(ApplyAll(f, plan[..1]), plan[1])
    ensures ApplyAll(f, plan[..3]) == Apply(ApplyAll(f, plan[..2]), plan[2])
    ensures ApplyAll(f, plan[..4]) == Apply(ApplyAll(f, plan[..3]), plan[3])
    ensures ApplyAll(f, plan[..5]) == Apply(ApplyAll(f, plan[..4]), plan[4])
    ensures ApplyAll(f, plan[..6]) == Apply(ApplyAll(f, plan[..5]), plan[5])
    ensures ApplyAll(f, plan) == Apply(ApplyAll(f, plan[..6]), plan[6])
    ensures plan[..7] == plan
  {
    AppendEffect(f, plan, 0);
    AppendEffect(f, plan, 1);
    AppendEffect(f, plan, 2);
    AppendEffect(f, plan, 3);
    AppendEffect(f, plan, 4);
    AppendEffect(f, plan, 5);
    AppendEffect(f, plan, 6);
    assert plan[..7] == plan;
  }

  /** Where a start-up can only fail. */
  predicate Stuck(f: Files) {
    if f.marker == NoMarker then f.state != NoState && !CanRollBack(f) else !CanActivate(f)
  }

  // ---- the old binary is never lost -----------------------------------------------------------

  /** The binary that was running can be started, or can be restored by a rollback. */
  predicate Kept(f: Files, running: Binary) {
    f.exe == Some(running) || (f.previous == Some(running) && f.state == Recorded)
  }

  /** Nothing recorded from an earlier activation could be rolled back to instead. */
  predicate NoOlderRecord(f: Files, running: Binary) {
    f.state == Recorded ==> f.previous == None || f.previous == Some(running)
  }

  predicate Inv(f: Files, running: Binary) {
    && Kept(f, running)
    && NoOlderRecord(f, running)
    && (CanActivate(f) ==> f.exe == Some(running))
  }

  lemma ActivationKeepsInv(f: Files, running: Binary, partial: Binary, stop: nat)
    requires Inv(f, running) && f.marker != NoMarker && CanActivate(f) && stop <= 7
    ensures Inv(ApplyAll(f, ActivatePlan(f, partial, false)[..stop]), running)
  {
    var plan := ActivatePlan(f, partial, false);
    Prefixes7(f, plan);
  }

  lemma RollBackKeepsInv(f: Files, running: Binary, undone: bool, stop: nat)
    requires Inv(f, running) && stop <= |RollBackPlan(f, undone)|
    ensures Inv(ApplyAll(f, RollBackPlan(f, undone)[..stop]), running)
  {
    var plan := RollBackPlan(f, undone);
    if CanRollBack(f) {
      if undone { Prefixes2(f, plan); } else { Prefixes3(f, plan); }
      assert plan[..|plan|] == plan;
    }
  }

  lemma RunKeepsInv(f: Files, running: Binary, run: Run)
    requires Inv(f, running)
    ensures Inv(After(f, run), running)
  {
    hide Inv;
    var plan := Plan(f, run);
    var stop := if run.stop < |plan| then run.stop else |plan|;
    assert plan[..|plan|] == plan;
    if run.activate && f.marker != NoMarker {
      if CanActivate(f) {
        ActivationKeepsInv(f, running, run.partial, stop);
      }
    } else {
      RollBackKeepsInv(f, running, run.undone, stop);
    }
  }

  lemma {:induction false} RunsKeepInv(f: Files, running: Binary, runs: seq<Run>)
    requires Inv(f, running)
    ensures Inv(AfterAll(f, runs), running)
    decreases |runs|
  {
    if runs != [] {
      RunKeepsInv(f, running, runs[0]);
      RunsKeepInv(After(f, runs[0]), running, runs[1..]);
    }
  }

  ghost predicate AlwaysKept(f: Files, running: Binary) {
    forall runs :: Kept(AfterAll(f, runs), running)
  }

  /** Through any sequence of interrupted activations and rollbacks the old
      binary is kept, exactly if no older activation is still recorded:
      a rollback would go back to that one instead. */
  lemma OldBinaryIsKept(f: Files, running: Binary)
    requires f.exe == Some(running)
    ensures AlwaysKept(f, running) <==> NoOlderRecord(f, running)
  {
    if NoOlderRecord(f, running) {
      forall runs ensures Kept(AfterAll(f, runs), running) {
        RunsKeepInv(f, running, runs);
      }
    } else {
      var runs := [Run(false, [], false, 3)];
      Prefixes3(f, RollBackPlan(f, false));
      assert runs[1..] == [];
      assert AfterAll(f, runs) == After(f, runs[0]);
      assert !Kept(AfterAll(f, runs), running);
    }
  }

  /** Left alone, an activation installs the new binary, and the next start-up
      that finds it not committed restores exactly the old one. */
  lemma ActivateThenRollBack(f: Files, running: Binary, staged: Binary, partial: Binary, undone: bool)
    requires f.marker == Staged && f.exe == Some(running) && f.pending == Some(staged)
    ensures var g := After(f, Run(true, partial, undone, 7));
      && g.exe == Some(staged) && g.previous == Some(running) && g.state == Recorded && g.marker == NoMarker && g.pending == None
      && var h := After(g, Run(true, partial, false, 3));
        h.exe == Some(running) && h.state == NoState && h.marker == NoMarker && h.failed == Some(staged)
  {
    var plan := ActivatePlan(f, partial, undone);
    Prefixes7(f, plan);
    var g := ApplyAll(f, plan);
    Prefixes3(g, RollBackPlan(g, false));
  }

  // ---- start-ups that can only fail ---------------------------------------------------------------

  /** Where a start-up can only fail, so does every later one. */
  lemma {:induction false} StuckForGood(f: Files, runs: seq<Run>)
    requires Stuck(f) && (forall i :: 0 <= i < |runs| ==> runs[i].activate)
    ensures AfterAll(f, runs) == f
    decreases |runs|
  {
    if runs != [] {
      assert runs[0].activate && Plan(f, runs[0]) == [];
      StuckForGood(f, runs[1..]);
    }
  }

  /** An interrupted start-up leaves every later one failing in exactly these
      two cases: the new binary is in place but the marker is still there, or
      the roll back has begun and its record is still there. */
  lemma WhereInterruptionSticks(f: Files, run: Run)
    requires run.activate && !Stuck(f)
    ensures Stuck(After(f, run)) <==>
      if f.marker != NoMarker then run.stop == 6
      else CanRollBack(f) && (if run.undone then run.stop == 1 else run.stop == 1 || run.stop == 2)
  {
    var plan := Plan(f, run);
    assert plan[..|plan|] == plan;
    if f.marker != NoMarker {
      Prefixes7(f, plan);
    } else if CanRollBack(f) {
      if run.undone { Prefixes2(f, plan); } else { Prefixes3(f, plan); }
    }
  }

  /** An interrupted commit leaves a healthy agent that cannot start again in
      exactly one case: the previous binary is gone, the record of it is not,
      and no new artifact waits to be activated instead. */
  lemma HalfCommitSticks(f: Files, run: Commit)
    requires !Stuck(f)
    ensures Stuck(AfterCommit(f, run)) <==> f.state == Recorded && run.removed && run.stop == 1 && f.marker == NoMarker
  {
    assert ApplyAll(f, []) == f;
    Prefixes2(f, [RemovePrevious, RemoveState]);
    OneEffect(f, RemoveState);
    assert [RemovePrevious, RemoveState][..0] == [];
  }
}
