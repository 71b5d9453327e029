/** Crash-loop detection (src/runtime/supervisor.rs, `observe`).

    The supervisor keeps a deque of recent failure times per server and prunes
    only its front.  The reference is the full log of failures since the last
    reset; instants are nanoseconds of a monotone clock. */
module CrashLoop {
  import opened Wrappers

  const SECOND: nat := 1_000_000_000
  const FAILURE_WINDOW: nat := 300 * SECOND
  const STABLE_AFTER: nat := 120 * SECOND
  const FAILURE_LIMIT: nat := 3

  /** What one scan sees of a container; `recovering` is `in_manual_recovery`. */
  datatype Sample = Sample(now: nat, restart: int, running: bool, exit: int, recovering: bool)

  datatype Observation = Observation(
    lastRestart: int, wasRunning: bool, runningSince: Option<nat>, failures: seq<nat>, quarantined: bool)

  // ---- one scan ----------------------------------------------------------------------

  function Clamp(n: int, low: int, high: int): int {
    if n < low then low else if n > high then high else n
  }

  function Repeat(now: nat, n: nat): (times: seq<nat>)
    ensures |times| == n && forall i :: 0 <= i < n ==> times[i] == now
  {
    seq(n, _ => now)
  }

  /** Failures a scan reports: restarts Docker counted, capped, and a fresh bad exit. */
  function NewFailures(state: Observation, e: Sample): (n: nat) {
    Clamp(e.restart - state.lastRestart, 0, 3) + if state.wasRunning && !e.running && e.exit != 0 then 1 else 0
  }

  function Prune(failures: seq<nat>, now: nat): seq<nat> {
    if failures != [] && now - failures[0] > FAILURE_WINDOW then Prune(failures[1..], now) else failures
  }

  function FirstSeen(e: Sample): Observation {
    Observation(e.restart, e.running, if e.running then Some(e.now) else None, [], false)
  }

  function RunningSince(state: Observation, e: Sample): Option<nat> {
    if !e.running then None else if state.runningSince.Some? then state.runningSince else Some(e.now)
  }

  predicate Stable(state: Observation, e: Sample) {
    var since := RunningSince(state, e);
    since.Some? && e.now - since.value >= STABLE_AFTER
  }

  function Scan(before: Option<Observation>, e: Sample): Observation {
    var state := if before.Some? then before.value else FirstSeen(e);
    if e.recovering then FirstSeen(e) else
      var pruned := Prune(state.failures + Repeat(e.now, NewFailures(state, e)), e.now);
      var failures := if Stable(state, e) then [] else pruned;
      Observation(e.restart, e.running, RunningSince(state, e), failures,
                  state.quarantined || |failures| >= FAILURE_LIMIT)
  }

  /** The scan stops the container, marks it and publishes a line. */
  predicate Acts(before: Option<Observation>, e: Sample) {
    var state := if before.Some? then before.value else FirstSeen(e);
    !e.recovering && !state.quarantined && Scan(before, e).quarantined
  }

  class Monitor {
    var lastRestart: int
    var wasRunning: bool
    var runningSince: Option<nat>
    var failures: seq<nat>
    var quarantined: bool

    ghost function State(): Observation
      reads this
    {
      Observation(lastRestart, wasRunning, runningSince, failures, quarantined)
    }

    /** The entry `or_insert_with` creates at a server's first scan. */
    constructor (e: Sample)
      ensures State() == FirstSeen(e)
    {
      lastRestart, wasRunning, failures, quarantined := e.restart, e.running, [], false;
      runningSince := if e.running then Some(e.now) else None;
    }

    method Observe(e: Sample) returns (acts: bool)
      modifies this
      ensures State() == Scan(Some(old(State())), e)
      ensures acts <==> Acts(Some(old(State())), e)
    {
      acts := false;
      if e.recovering {
        lastRestart, wasRunning, failures, quarantined := e.restart, e.running, [], false;
        runningSince := if e.running then Some(e.now) else None;
        return;
      }
      ghost var reported := failures + Repeat(e.now, NewFailures(State(), e));
      var restarts := Clamp(e.restart - lastRestart, 0, 3);
      ghost var start := failures;
      for i := 0 to restarts
        invariant failures == start + Repeat(e.now, i)
        invariant lastRestart == old(lastRestart) && wasRunning == old(wasRunning)
        invariant runningSince == old(runningSince) && quarantined == old(quarantined)
      {
        failures := failures + [e.now];
      }
      if wasRunning && !e.running && e.exit != 0 {
        failures := failures + [e.now];
      }
      assert failures == reported;
      while failures != [] && e.now - failures[0] > FAILURE_WINDOW
        invariant Prune(failures, e.now) == Prune(reported, e.now)
        invariant lastRestart == old(lastRestart) && wasRunning == old(wasRunning)
        invariant runningSince == old(runningSince) && quarantined == old(quarantined)
        decreases |failures|
      {
        failures := failures[1..];
      }
      if e.running {
        if runningSince.None? {
          runningSince := Some(e.now);
        }
        if e.now - runningSince.value >= STABLE_AFTER {
          failures := [];
        }
      } else {
        runningSince := None;
      }
      lastRestart, wasRunning := e.restart, e.running;
      if !quarantined && |failures| >= FAILURE_LIMIT {
        quarantined := true;
        acts := true;
      }
    }
  }

  // ---- whole runs, and the reference log ---------------------------------------------------

  function StateAt(run: seq<Sample>): Option<Observation> {
    if run == [] then None else Some(Scan(StateAt(run[..|run| - 1]), run[|run| - 1]))
  }

  /** The state a scan starts from; for the first one, what it creates. */
  function Before(run: seq<Sample>): Observation
    requires run != []
  {
    var before := StateAt(run[..|run| - 1]);
    if before.Some? then before.value else FirstSeen(run[|run| - 1])
  }

  // The reference is defined by the samples alone.

  /** From sample `j` to the last one the container was seen running, with no
      manual recovery in between. */
  ghost predicate Streak(run: seq<Sample>, j: int) {
    && 0 <= j < |run|
    && (forall k :: j <= k < |run| ==> run[k].running)
    && (forall k :: j < k < |run| ==> !run[k].recovering)
  }

  /** A scan that forgets all failures: manual recovery, or two minutes of observed running. */
  ghost predicate Resets(run: seq<Sample>)
    requires run != []
  {
    var e := run[|run| - 1];
    e.recovering || exists j :: Streak(run, j) && e.now - run[j].now >= 120_000_000_000
  }

  /** The failures that the last sample reports against the one before it. */
  function Reported(run: seq<Sample>): nat
    requires run != []
  {
    if |run| == 1 then 0 else
      var previous, e := run[|run| - 2], run[|run| - 1];
      var restarts := e.restart - previous.restart;
      (if restarts < 0 then 0 else if restarts > 3 then 3 else restarts) + if previous.running && !e.running && e.exit != 0 then 1 else 0
  }

  /** Every failure reported since the last reset, never pruned. */
  ghost function FailureLog(run: seq<Sample>): seq<nat> {
    if run == [] || Resets(run) then [] else
      FailureLog(run[..|run| - 1]) + Repeat(run[|run| - 1].now, Reported(run))
  }

  // ... and agrees with what the monitor remembers from one scan to the next.

  lemma ReportedIsObserved(run: seq<Sample>)
    requires run != []
    ensures Reported(run) == NewFailures(Before(run), run[|run| - 1])
  {
    if |run| > 1 { assert run[..|run| - 1][|run| - 2] == run[|run| - 2]; }
  }

  /** The remembered start is that of the longest streak up to the last sample. */
  lemma {:induction false} SinceIsStreak(run: seq<Sample>) returns (j: nat)
    requires run != []
    ensures var since := StateAt(run).value.runningSince;
      if run[|run| - 1].running then Streak(run, j) && since == Some(run[j].now) && forall i :: Streak(run, i) ==> j <= i
      else since == None && forall i :: !Streak(run, i)
    decreases |run|
  {
    var last := |run| - 1;
    var earlier := run[..last];
    j := last;
    if run[last].running {
      assert Streak(run, last);
      if |run| > 1 && !run[last].recovering {
        var i := SinceIsStreak(earlier);
        if earlier[last - 1].running {
          j := i;
          assert forall k :: 0 <= k < last ==> run[k] == earlier[k];
        }
        forall k | Streak(run, k) && k < last ensures Streak(earlier, k) {
          assert forall m :: 0 <= m < last ==> run[m] == earlier[m];
        }
      }
    }
  }

  lemma ResetsIsObserved(run: seq<Sample>)
    requires Monotone(run) && run != []
    ensures Resets(run) <==> run[|run| - 1].recovering || Stable(Before(run), run[|run| - 1])
  {
    var e := run[|run| - 1];
    if !e.recovering {
      var j := SinceIsStreak(run);
      hide StateAt;
      assert StateAt(run).value.runningSince == RunningSince(Before(run), e) by { SinceAfterScan(run); }
      if e.running && Resets(run) {
        var i :| Streak(run, i) && e.now - run[i].now >= 120_000_000_000;
        assert run[j].now <= run[i].now;
      }
    }
  }

  lemma SinceAfterScan(run: seq<Sample>)
    requires run != [] && !run[|run| - 1].recovering
    ensures StateAt(run).value.runningSince == RunningSince(Before(run), run[|run| - 1])
  {}

  function Recent(log: seq<nat>, now: nat): seq<nat> {
    if log == [] then []
    else if now - log[0] <= 300_000_000_000 then [log[0]] + Recent(log[1..], now)
    else Recent(log[1..], now)
  }

  ghost predicate Monotone(run: seq<Sample>) {
    forall i, j :: 0 <= i <= j < |run| ==> run[i].now <= run[j].now
  }

  ghost predicate Ascending(times: seq<nat>, now: nat) {
    && (forall i, j :: 0 <= i <= j < |times| ==> times[i] <= times[j])
    && (forall i :: 0 <= i < |times| ==> times[i] <= now)
  }

  lemma {:induction false} RecentAppend(a: seq<nat>, b: seq<nat>, now: nat)
    ensures Recent(a + b, now) == Recent(a, now) + Recent(b, now)
  {
    if a == [] {
      assert a + b == b;
    } else {
      assert (a + b)[1..] == a[1..] + b;
      assert (a + b)[0] == a[0];
      RecentAppend(a[1..], b, now);
    }
  }

  lemma {:induction false} AllRecent(times: seq<nat>, now: nat)
    requires forall i :: 0 <= i < |times| ==> now - times[i] <= FAILURE_WINDOW
    ensures Recent(times, now) == times
  {
    if times != [] { AllRecent(times[1..], now); }
  }

  /** What was already too old at an earlier scan stays too old. */
  lemma {:induction false} RecentTwice(log: seq<nat>, earlier: nat, now: nat)
    requires earlier <= now
    ensures Recent(Recent(log, earlier), now) == Recent(log, now)
  {
    if log != [] {
      RecentTwice(log[1..], earlier, now);
      if earlier - log[0] <= FAILURE_WINDOW {
        assert Recent(log, earlier)[1..] == Recent(log[1..], earlier);
      }
    }
  }

  /** Pruning the front of an ascending deque is filtering it. */
  lemma {:induction false} PruneIsRecent(times: seq<nat>, now: nat)
    requires Ascending(times, now)
    ensures Prune(times, now) == Recent(times, now)
  {
    if times != [] {
      if now - times[0] > FAILURE_WINDOW {
        PruneIsRecent(times[1..], now);
      } else {
        AllRecent(times, now);
      }
    }
  }

  lemma {:induction false} LogAscends(run: seq<Sample>)
    requires Monotone(run) && run != []
    ensures Ascending(FailureLog(run), run[|run| - 1].now)
  {
    if |run| > 1 { LogAscends(run[..|run| - 1]); }
  }

  lemma {:induction false} RecentAscends(times: seq<nat>, earlier: nat, now: nat)
    requires Ascending(times, now)
    ensures Ascending(Recent(times, earlier), now)
    ensures forall time :: time in Recent(times, earlier) ==> time in times
  {
    if times != [] {
      RecentAscends(times[1..], earlier, now);
      var rest := Recent(times[1..], earlier);
      forall i | 0 <= i < |rest| ensures times[0] <= rest[i] {
        assert rest[i] in times[1..];
      }
    }
  }

  /** The deque always holds exactly the failures since the last reset that are
      at most 300 seconds old, although only its front is ever pruned. */
  lemma {:induction false} DequeIsRecentLog(run: seq<Sample>)
    requires Monotone(run) && run != []
    ensures StateAt(run).value.failures == Recent(FailureLog(run), run[|run| - 1].now)
  {
    var e, earlier := run[|run| - 1], run[..|run| - 1];
    ResetsIsObserved(run);
    ReportedIsObserved(run);
    hide Resets, Stable;
    if !Resets(run) {
      var reported := Repeat(e.now, NewFailures(Before(run), e));
      var logged := FailureLog(earlier);
      AllRecent(reported, e.now);
      RecentAppend(logged, reported, e.now);
      LogAscends(run);
      if earlier == [] {
        PruneIsRecent([] + reported, e.now);
      } else {
        var past := earlier[|earlier| - 1].now;
        DequeIsRecentLog(earlier);
        RecentTwice(logged, past, e.now);
        RecentAppend(Recent(logged, past), reported, e.now);
        LogAscends(earlier);
        assert Ascending(logged, e.now);
        RecentAscends(logged, past, e.now);
        PruneIsRecent(Recent(logged, past) + reported, e.now);
      }
    }
  }

  // ---- quarantine ------------------------------------------------------------------------------

  ghost predicate Overloaded(run: seq<Sample>)
    requires run != []
  {
    |Recent(FailureLog(run), run[|run| - 1].now)| >= 3
  }

  /** Since the last manual recovery some scan found three recent failures. */
  ghost predicate Quarantined(run: seq<Sample>) {
    run != [] && !run[|run| - 1].recovering && (Quarantined(run[..|run| - 1]) || Overloaded(run))
  }

  predicate ActsAt(run: seq<Sample>)
    requires run != []
  {
    Acts(StateAt(run[..|run| - 1]), run[|run| - 1])
  }

  lemma {:induction false} QuarantineMeaning(run: seq<Sample>)
    requires Monotone(run) && run != []
    ensures StateAt(run).value.quarantined <==> Quarantined(run)
    ensures ActsAt(run) <==> Overloaded(run) && !run[|run| - 1].recovering && !Quarantined(run[..|run| - 1])
  {
    DequeIsRecentLog(run);
    if |run| > 1 { QuarantineMeaning(run[..|run| - 1]); }
  }

  lemma {:induction false} QuarantineLasts(run: seq<Sample>, i: nat)
    requires 0 < i <= |run| && Quarantined(run[..i])
    requires forall k :: i <= k < |run| ==> !run[k].recovering
    ensures Quarantined(run)
  {
    if i == |run| {
      assert run[..i] == run;
    } else {
      assert run[..|run| - 1][..i] == run[..i];
      QuarantineLasts(run[..|run| - 1], i);
    }
  }

  /** The container is stopped at most once between two manual recoveries. */
  lemma ActsOnce(run: seq<Sample>, i: nat)
    requires Monotone(run) && 0 < i < |run| && ActsAt(run[..i]) && ActsAt(run)
    ensures exists k :: i <= k < |run| && run[k].recovering
  {
    QuarantineMeaning(run[..i]);
    QuarantineMeaning(run);
    if forall k :: i <= k < |run| ==> !run[k].recovering {
      assert run[..|run| - 1][..i] == run[..i];
      assert Quarantined(run[..i]);
      QuarantineLasts(run[..|run| - 1], i);
    }
  }

  /** Every quarantine has a start: a scan that acted, with no recovery since. */
  lemma {:induction false} QuarantineHasStart(run: seq<Sample>) returns (k: nat)
    requires Monotone(run) && Quarantined(run)
    ensures 0 < k <= |run| && ActsAt(run[..k]) && Overloaded(run[..k])
    ensures forall j :: k <= j < |run| ==> !run[j].recovering
  {
    hide Overloaded;
    var earlier := run[..|run| - 1];
    if Quarantined(earlier) {
      k := QuarantineHasStart(earlier);
      assert earlier[..k] == run[..k];
      assert forall j :: 0 <= j < |earlier| ==> earlier[j] == run[j];
    } else {
      QuarantineMeaning(run);
      assert run[..|run|] == run;
      k := |run|;
    }
  }
}
