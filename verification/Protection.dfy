/** Command and console rate limits (src/security/protection.rs).

    Instants are nanoseconds of a monotone clock.  Each limiter keeps one window
    per server and forgets everything older; the lemmas compare it with the
    plain list of all event times. */
module Protection {
  import opened Wrappers

  type Id = string

  const SECOND: nat := 1_000_000_000
  const COMMAND_WINDOW: nat := 5 * SECOND
  const CONSOLE_WINDOW: nat := SECOND
  const STRIKE_COOLDOWN: nat := 10 * SECOND

  datatype Rate = Rate(started: nat, count: nat)

  datatype ConsoleRate = ConsoleRate(window: Rate, strikes: nat, lastStrike: Option<nat>, exceeded: bool)

  datatype LineDecision = Allow | Suppress | Notify | Trip

  // ---- one event ----------------------------------------------------------------------

  /** A window counts its events and restarts at the first event after it has run out. */
  function Tick(rate: Option<Rate>, now: nat, window: nat): Rate {
    if rate.None? then Rate(now, 1)
    else if now - rate.value.started >= window then Rate(now, 1)
    else Rate(rate.value.started, rate.value.count + 1)
  }

  function Observe(rate: Option<ConsoleRate>, now: nat, limit: nat, strikeLimit: nat): (ConsoleRate, LineDecision) {
    var current := if rate.Some? then rate.value else ConsoleRate(Rate(now, 0), 0, None, false);
    var cooled := if current.lastStrike.Some? && now - current.lastStrike.value >= STRIKE_COOLDOWN
      then current.(strikes := 0, lastStrike := None) else current;
    var restarted := now - cooled.window.started >= CONSOLE_WINDOW;
    var counted := if restarted then cooled.(window := Rate(now, 1), exceeded := false)
      else cooled.(window := Rate(cooled.window.started, cooled.window.count + 1));
    if counted.window.count <= limit then (counted, Allow)
    else if counted.exceeded then (counted, Suppress)
    else
      var struck := counted.(exceeded := true, strikes := counted.strikes + 1, lastStrike := Some(now));
      (struck, if struck.strikes >= strikeLimit then Trip else if struck.strikes == 1 then Notify else Suppress)
  }

  function Lookup<T>(rates: map<Id, T>, id: Id): Option<T> {
    if id in rates then Some(rates[id]) else None
  }

  class ProtectionState {
    var commands: map<Id, Rate>
    var console: map<Id, ConsoleRate>
    const linesPerSecond: nat
    const strikeLimit: nat
    const commandsPerWindow: nat

    constructor (linesPerSecond: nat, strikeLimit: nat, commandsPerWindow: nat)
      ensures commands == map[] && console == map[]
      ensures this.linesPerSecond == linesPerSecond && this.strikeLimit == strikeLimit
      ensures this.commandsPerWindow == commandsPerWindow
    {
      commands, console := map[], map[];
      this.linesPerSecond, this.strikeLimit, this.commandsPerWindow := linesPerSecond, strikeLimit, commandsPerWindow;
    }

    method ObserveLine(id: Id, now: nat) returns (decision: LineDecision)
      modifies this`console
      ensures id in console && console == old(console)[id := console[id]]
      ensures (console[id], decision) == Observe(Lookup(old(console), id), now, linesPerSecond, strikeLimit)
    {
      var rate := if id in console then console[id] else ConsoleRate(Rate(now, 0), 0, None, false);
      if rate.lastStrike.Some? && now - rate.lastStrike.value >= STRIKE_COOLDOWN {
        rate := rate.(strikes := 0, lastStrike := None);
      }
      if now - rate.window.started >= CONSOLE_WINDOW {
        rate := rate.(window := Rate(now, 0), exceeded := false);
      }
      rate := rate.(window := rate.window.(count := rate.window.count + 1));
      console := console[id := rate];
      if rate.window.count <= linesPerSecond {
        return Allow;
      }
      if rate.exceeded {
        return Suppress;
      }
      rate := rate.(exceeded := true, strikes := rate.strikes + 1, lastStrike := Some(now));
      console := console[id := rate];
      if rate.strikes >= strikeLimit {
        return Trip;
      } else if rate.strikes == 1 {
        return Notify;
      }
      return Suppress;
    }

    method AcceptCommand(id: Id, now: nat) returns (accepted: bool)
      modifies this`commands
      ensures id in commands && commands == old(commands)[id := commands[id]]
      ensures commands[id] == Tick(Lookup(old(commands), id), now, COMMAND_WINDOW)
      ensures accepted <==> commands[id].count <= commandsPerWindow
    {
      var rate := if id in commands then commands[id] else Rate(now, 0);
      if now - rate.started >= COMMAND_WINDOW {
        rate := Rate(now, 0);
      }
      rate := rate.(count := rate.count + 1);
      commands := commands[id := rate];
      return rate.count <= commandsPerWindow;
    }

    method Remove(id: Id)
      modifies this
      ensures commands == old(commands) - {id} && console == old(console) - {id}
    {
      commands := commands - {id};
      console := console - {id};
    }
  }

  // ---- whole runs -------------------------------------------------------------------------

  ghost predicate Sorted(times: seq<nat>) {
    forall i, j :: 0 <= i <= j < |times| ==> times[i] <= times[j]
  }

  /** The window after the first `k` events of a run. */
  function WindowAfter(times: seq<nat>, window: nat, k: nat): Option<Rate>
    requires k <= |times|
  {
    if k == 0 then None else Some(Tick(WindowAfter(times, window, k - 1), times[k - 1], window))
  }

  /** How many of the events `i..j` found at most `quota` events in their window. */
  function Within(times: seq<nat>, window: nat, quota: nat, i: nat, j: nat): nat
    requires i <= j <= |times|
    decreases j
  {
    if i == j then 0 else
      Within(times, window, quota, i, j - 1)
      + if WindowAfter(times, window, j).value.count <= quota then 1 else 0
  }

  /** The windows, from the times alone: one starts at the first event, and the
      next one at the first event that is a whole window later.  This is the
      event that starts the window of event `k`. */
  function WindowStart(times: seq<nat>, window: nat, k: nat): (s: nat)
    requires k < |times|
    ensures s <= k
  {
    if k == 0 then 0 else
      var s := WindowStart(times, window, k - 1);
      if times[k] - times[s] >= window then k else s
  }

  /** What is kept of a window is when it started and how many events it has had. */
  lemma {:induction false} WindowIs(times: seq<nat>, window: nat, k: nat)
    requires k < |times|
    ensures var s := WindowStart(times, window, k);
      && WindowAfter(times, window, k + 1) == Some(Rate(times[s], k + 1 - s))
      && (s < k ==> times[k] - times[s] < window)
  {
    if k > 0 { WindowIs(times, window, k - 1); }
  }

  /** Where fewer than `quota` events precede event `k` within a window's length, its window has room for it. */
  lemma RoomForTheQuiet(times: seq<nat>, window: nat, quota: nat, k: nat)
    requires k < |times| && forall i :: 0 <= i <= k && (i < k ==> times[k] - times[i] < window) ==> k - i < quota
    ensures WindowAfter(times, window, k + 1).value.count <= quota
  {
    WindowIs(times, window, k);
  }

  /** How often the window restarted in the events after `i` and before `j`. */
  function Restarts(times: seq<nat>, window: nat, i: nat, j: nat): nat
    requires i < j <= |times|
    decreases j
  {
    if j == i + 1 then 0 else
      Restarts(times, window, i, j - 1)
      + if WindowAfter(times, window, j).value.count == 1 then 1 else 0
  }

  lemma {:induction false} WindowFacts(times: seq<nat>, window: nat, k: nat)
    requires Sorted(times) && 0 < k <= |times|
    ensures WindowAfter(times, window, k).value.count >= 1
    ensures WindowAfter(times, window, k).value.started <= times[k - 1]
  {
    if k > 1 { WindowFacts(times, window, k - 1); }
  }

  /** A restarted window begins at least a whole window after the one before it. */
  lemma WindowStep(times: seq<nat>, window: nat, k: nat)
    requires Sorted(times) && 1 < k <= |times|
    ensures var before, after := WindowAfter(times, window, k - 1).value, WindowAfter(times, window, k).value;
      && before.started <= after.started
      && (after.count == 1 ==> after.started >= before.started + window && after.started == times[k - 1])
  {}

  /** Restarts are a whole window apart. */
  lemma {:induction false} RestartsAreApart(times: seq<nat>, window: nat, i: nat, j: nat)
    requires Sorted(times) && i < j <= |times|
    ensures var n := Restarts(times, window, i, j);
      n > 0 ==> WindowAfter(times, window, j).value.started >= times[i] + (n - 1) * window
    decreases j
  {
    if j > i + 1 {
      RestartsAreApart(times, window, i, j - 1);
      WindowStep(times, window, j);
      hide WindowAfter;
      var m := Restarts(times, window, i, j - 1);
      OneMore(m, window);
    }
  }

  lemma OneMore(m: nat, window: nat)
    ensures m > 0 ==> m * window == (m - 1) * window + window
    ensures (m + 1) * window == m * window + window
  {
  }

  /** Each window lets at most its quota through. */
  lemma {:induction false} QuotaPerWindow(times: seq<nat>, window: nat, quota: nat, i: nat, j: nat)
    requires Sorted(times) && i < j <= |times|
    ensures Within(times, window, quota, i, j) <= Restarts(times, window, i, j) * quota
      + if WindowAfter(times, window, j).value.count < quota then WindowAfter(times, window, j).value.count else quota
    decreases j
  {
    WindowFacts(times, window, j);
    if j > i + 1 {
      QuotaPerWindow(times, window, quota, i, j - 1);
      WindowFacts(times, window, j - 1);
      OneMore(Restarts(times, window, i, j - 1), quota);
    }
  }

  lemma ManyWindowsTakeLong(n: nat, window: nat, span: nat)
    requires window > 0 && n > 0 && (n - 1) * window <= span
    ensures n <= span / window + 1
  {
    var q := span / window;
    assert span == q * window + span % window;
    if q + 1 <= n - 1 {
      MultiplyMonotone(q + 1, n - 1, window);
      OneMore(q, window);
    }
  }

  /** Over any stretch of `span` nanoseconds, whatever the windows did. */
  lemma WindowBound(times: seq<nat>, window: nat, quota: nat, i: nat, j: nat, span: nat)
    requires Sorted(times) && i < j <= |times| && window > 0 && times[j - 1] - times[i] <= span
    ensures Within(times, window, quota, i, j) <= quota * (span / window + 2)
  {
    QuotaPerWindow(times, window, quota, i, j);
    RestartsAreApart(times, window, i, j);
    WindowFacts(times, window, j);
    var n := Restarts(times, window, i, j);
    hide Within, Restarts, WindowAfter;
    if n > 0 { ManyWindowsTakeLong(n, window, span); }
    QuotaTotal(n, quota, span / window);
  }

  lemma QuotaTotal(n: nat, quota: nat, windows: nat)
    requires n <= windows + 1
    ensures n * quota + quota <= quota * (windows + 2)
  {
    OneMore(n, quota);
    MultiplyMonotone(n + 1, windows + 2, quota);
  }

  lemma {:induction false} MultiplyMonotone(b: nat, c: nat, a: nat)
    requires b <= c
    ensures b * a <= c * a
  {
    assert c * a == b * a + (c - b) * a;
  }

  /** `accept_command` accepts at most limit × (⌊L/5⌋ + 2) commands in any L seconds. */
  lemma CommandRateBound(times: seq<nat>, limit: nat, i: nat, j: nat, seconds: nat)
    requires Sorted(times) && i < j <= |times| && times[j - 1] - times[i] <= seconds * SECOND
    ensures Within(times, COMMAND_WINDOW, limit, i, j) <= limit * (seconds / 5 + 2)
  {
    WindowBound(times, COMMAND_WINDOW, limit, i, j, seconds * SECOND);
    assert seconds * SECOND / COMMAND_WINDOW == seconds / 5;
  }

  predicate Accepted(times: seq<nat>, limit: nat, k: nat)
    requires k < |times|
  {
    WindowAfter(times, COMMAND_WINDOW, k + 1).value.count <= limit
  }

  /** Exactly which commands are accepted: the first `limit` of each window of five seconds. */
  lemma CommandAcceptedIff(times: seq<nat>, limit: nat, k: nat)
    requires k < |times|
    ensures Accepted(times, limit, k) <==> k - WindowStart(times, 5_000_000_000, k) < limit
  {
    WindowIs(times, 5 * SECOND, k);
  }

  /** Who never sends more than `limit` commands in less than five seconds is never refused. */
  lemma QuietCommandsAreAccepted(times: seq<nat>, limit: nat, k: nat)
    requires k < |times| && forall i :: 0 <= i <= k && (i < k ==> times[k] - times[i] < 5 * SECOND) ==> k - i < limit
    ensures Accepted(times, limit, k)
  {
    RoomForTheQuiet(times, 5 * SECOND, limit, k);
  }

  // ---- console lines ------------------------------------------------------------------------

  datatype Line = Line(rate: ConsoleRate, decision: LineDecision)

  /** The state and decision at the k-th line of a run. */
  function LineAt(times: seq<nat>, limit: nat, strikeLimit: nat, k: nat): Line
    requires k < |times|
  {
    var before := if k == 0 then None else Some(LineAt(times, limit, strikeLimit, k - 1).rate);
    var (rate, decision) := Observe(before, times[k], limit, strikeLimit);
    Line(rate, decision)
  }

  /** How many of the lines `i..j` reach the console, notices included. */
  function Emitted(times: seq<nat>, limit: nat, strikeLimit: nat, i: nat, j: nat): nat
    requires i <= j <= |times|
    decreases j
  {
    if i == j then 0 else
      Emitted(times, limit, strikeLimit, i, j - 1)
      + if LineAt(times, limit, strikeLimit, j - 1).decision.Suppress? then 0 else 1
  }

  /** The console window is the plain window, and a line is emitted only as one
      of the first `limit`, or as the notice of the line after them. */
  lemma {:induction false} LineMeaning(times: seq<nat>, limit: nat, strikeLimit: nat, k: nat)
    requires Sorted(times) && k < |times|
    ensures var line := LineAt(times, limit, strikeLimit, k);
      && Some(line.rate.window) == WindowAfter(times, CONSOLE_WINDOW, k + 1)
      && (line.rate.exceeded <==> line.rate.window.count > limit)
      && (line.decision.Allow? <==> line.rate.window.count <= limit)
      && (line.decision.Notify? || line.decision.Trip? ==> line.rate.window.count == limit + 1)
  {
    if k > 0 { LineMeaning(times, limit, strikeLimit, k - 1); }
  }

  lemma {:induction false} EmittedWithin(times: seq<nat>, limit: nat, strikeLimit: nat, i: nat, j: nat)
    requires Sorted(times) && i <= j <= |times|
    ensures Emitted(times, limit, strikeLimit, i, j) <= Within(times, CONSOLE_WINDOW, limit + 1, i, j)
    decreases j
  {
    if i < j {
      EmittedWithin(times, limit, strikeLimit, i, j - 1);
      LineMeaning(times, limit, strikeLimit, j - 1);
    }
  }

  /** `observe_line` lets out at most (limit + 1) × (⌊L⌋ + 2) lines in any L seconds. */
  lemma ConsoleRateBound(times: seq<nat>, limit: nat, strikeLimit: nat, i: nat, j: nat, seconds: nat)
    requires Sorted(times) && i < j <= |times| && times[j - 1] - times[i] <= seconds * SECOND
    ensures Emitted(times, limit, strikeLimit, i, j) <= (limit + 1) * (seconds + 2)
  {
    EmittedWithin(times, limit, strikeLimit, i, j);
    WindowBound(times, CONSOLE_WINDOW, limit + 1, i, j, seconds * SECOND);
  }

  predicate Notice(decision: LineDecision) { decision.Notify? || decision.Trip? }

  /** At most one notice per window: between two of them the window restarts. */
  lemma {:induction false} OneNoticePerWindow(times: seq<nat>, limit: nat, strikeLimit: nat, i: nat, j: nat)
    requires Sorted(times) && i < j < |times|
    requires Notice(LineAt(times, limit, strikeLimit, i).decision) && Notice(LineAt(times, limit, strikeLimit, j).decision)
    ensures LineAt(times, limit, strikeLimit, j).rate.window.started >= LineAt(times, limit, strikeLimit, i).rate.window.started + CONSOLE_WINDOW
  {
    LineMeaning(times, limit, strikeLimit, i);
    LineMeaning(times, limit, strikeLimit, j);
    WindowMoves(times, CONSOLE_WINDOW, i + 1, j + 1);
  }

  /** As long as the window has not restarted, its count has grown by every event. */
  lemma {:induction false} WindowMoves(times: seq<nat>, window: nat, i: nat, j: nat)
    requires Sorted(times) && 0 < i <= j <= |times|
    ensures var a, b := WindowAfter(times, window, i).value, WindowAfter(times, window, j).value;
      b.started >= a.started + window || (b.started == a.started && b.count == a.count + (j - i))
    decreases j
  {
    if i < j { WindowMoves(times, window, i, j - 1); }
  }

  predicate Strikes(times: seq<nat>, limit: nat, strikeLimit: nat, k: nat)
    requires k < |times|
  {
    LineAt(times, limit, strikeLimit, k).rate.lastStrike == Some(times[k])
    && LineAt(times, limit, strikeLimit, k).rate.window.count == limit + 1
  }

  /** After a strike the state remembers it for ten seconds. */
  lemma {:induction false} StrikeIsRemembered(times: seq<nat>, limit: nat, strikeLimit: nat, i: nat, k: nat)
    requires Sorted(times) && i <= k < |times| && times[k] - times[i] < STRIKE_COOLDOWN
    requires Strikes(times, limit, strikeLimit, i) && LineAt(times, limit, strikeLimit, i).rate.strikes >= 1
    ensures var rate := LineAt(times, limit, strikeLimit, k).rate;
      rate.strikes >= 1 && rate.lastStrike.Some? && times[i] <= rate.lastStrike.value <= times[k]
    ensures i < k ==> !LineAt(times, limit, strikeLimit, k).decision.Notify?
    decreases k
  {
    if i < k { StrikeIsRemembered(times, limit, strikeLimit, i, k - 1); }
  }

  /** The throttling notice is not repeated: two of them are at least ten seconds apart. */
  lemma NotifyIsRare(times: seq<nat>, limit: nat, strikeLimit: nat, i: nat, j: nat)
    requires Sorted(times) && i < j < |times|
    requires LineAt(times, limit, strikeLimit, i).decision.Notify? && LineAt(times, limit, strikeLimit, j).decision.Notify?
    ensures times[j] - times[i] >= STRIKE_COOLDOWN
  {
    LineMeaning(times, limit, strikeLimit, i);
    if times[j] - times[i] < STRIKE_COOLDOWN {
      StrikeIsRemembered(times, limit, strikeLimit, i, j);
    }
  }

  // ---- strikes ----------------------------------------------------------------------------------

  /** A line strikes if it is the one after the first `limit` of its window. */
  predicate IsStrike(times: seq<nat>, limit: nat, k: nat)
    requires k < |times|
  {
    k - WindowStart(times, SECOND, k) == limit
  }

  /** Strikes, each less than ten seconds after the one before it. */
  ghost predicate Chain(times: seq<nat>, limit: nat, strikes: seq<nat>) {
    && (forall i :: 0 <= i < |strikes| ==> strikes[i] < |times| && IsStrike(times, limit, strikes[i]))
    && forall i :: 0 < i < |strikes| ==>
      strikes[i - 1] < strikes[i] && times[strikes[i]] - times[strikes[i - 1]] < 10 * SECOND
  }

  ghost predicate ChainTo(times: seq<nat>, limit: nat, k: nat, n: nat) {
    exists strikes :: |strikes| > 0 && |strikes| >= n && strikes[|strikes| - 1] == k && Chain(times, limit, strikes)
  }

  /** The latest strike among the first `k` lines. */
  function LastStrike(times: seq<nat>, limit: nat, k: nat): (last: Option<nat>)
    requires k <= |times|
    ensures last.Some? ==> last.value < k && IsStrike(times, limit, last.value)
    ensures forall i :: (if last.Some? then last.value + 1 else 0) <= i < k ==> !IsStrike(times, limit, i)
  {
    if k == 0 then None else if IsStrike(times, limit, k - 1) then Some(k - 1) else LastStrike(times, limit, k - 1)
  }

  /** How many strikes have come since the last pause of ten seconds before strike `k`. */
  function Streak(times: seq<nat>, limit: nat, k: nat): (n: nat)
    requires k < |times|
    ensures n > 0
  {
    var last := LastStrike(times, limit, k);
    1 + if last.Some? && times[k] - times[last.value] < 10 * SECOND then Streak(times, limit, last.value) else 0
  }

  lemma {:induction false} StreakIsChain(times: seq<nat>, limit: nat, k: nat) returns (strikes: seq<nat>)
    requires k < |times| && IsStrike(times, limit, k)
    ensures |strikes| == Streak(times, limit, k) && strikes[|strikes| - 1] == k && Chain(times, limit, strikes)
  {
    var last := LastStrike(times, limit, k);
    if last.Some? && times[k] - times[last.value] < 10 * SECOND {
      strikes := StreakIsChain(times, limit, last.value);
      strikes := strikes + [k];
    } else {
      strikes := [k];
    }
  }

  lemma {:induction false} ChainIsShorter(times: seq<nat>, limit: nat, strikes: seq<nat>)
    requires Sorted(times) && strikes != [] && Chain(times, limit, strikes)
    ensures |strikes| <= Streak(times, limit, strikes[|strikes| - 1])
    decreases |strikes|
  {
    var n := |strikes| - 1;
    if n > 0 {
      ChainStep(times, limit, strikes);
      hide IsStrike, Chain, Streak, LastStrike, Sorted;
      ChainIsShorter(times, limit, strikes[..n]);
      StreakAfter(times, limit, strikes[n - 1], strikes[n]);
    }
  }

  lemma ChainStep(times: seq<nat>, limit: nat, strikes: seq<nat>)
    requires Chain(times, limit, strikes) && |strikes| > 1
    ensures var n := |strikes| - 1;
      && Chain(times, limit, strikes[..n]) && IsStrike(times, limit, strikes[n - 1])
      && strikes[n - 1] < strikes[n] < |times| && times[strikes[n]] - times[strikes[n - 1]] < 10 * SECOND
  {
    hide IsStrike;
  }

  /** A strike less than ten seconds after another one adds to its streak. */
  lemma StreakAfter(times: seq<nat>, limit: nat, i: nat, k: nat)
    requires Sorted(times) && i < k < |times| && IsStrike(times, limit, i) && times[k] - times[i] < 10 * SECOND
    ensures Streak(times, limit, i) < Streak(times, limit, k)
  {
    var last := LastStrike(times, limit, k);
    assert last.Some? && i <= last.value;
    StreakGrows(times, limit, i, last.value);
  }

  /** Among strikes less than ten seconds apart the later one has the longer streak. */
  lemma {:induction false} StreakGrows(times: seq<nat>, limit: nat, i: nat, k: nat)
    requires Sorted(times) && i <= k < |times| && IsStrike(times, limit, i) && times[k] - times[i] < 10 * SECOND
    ensures Streak(times, limit, i) <= Streak(times, limit, k)
    decreases k
  {
    if i < k {
      var last := LastStrike(times, limit, k);
      assert last.Some? && i <= last.value;
      StreakGrows(times, limit, i, last.value);
    }
  }

  lemma StreakMeaning(times: seq<nat>, limit: nat, k: nat, n: nat)
    requires Sorted(times) && k < |times| && IsStrike(times, limit, k)
    ensures ChainTo(times, limit, k, n) <==> n <= Streak(times, limit, k)
  {
    var longest := StreakIsChain(times, limit, k);
    if ChainTo(times, limit, k, n) {
      var strikes :| |strikes| > 0 && |strikes| >= n && strikes[|strikes| - 1] == k && Chain(times, limit, strikes);
      ChainIsShorter(times, limit, strikes);
    }
  }

  /** What a line does to the remembered strikes: it forgets them after ten
      seconds, and adds itself if it is a strike. */
  function Forgetting(rate: ConsoleRate, now: nat): ConsoleRate {
    if rate.lastStrike.Some? && now - rate.lastStrike.value >= 10 * SECOND then rate.(strikes := 0, lastStrike := None) else rate
  }

  lemma StrikeStep(times: seq<nat>, limit: nat, strikeLimit: nat, k: nat)
    requires Sorted(times) && k < |times|
    ensures var line := LineAt(times, limit, strikeLimit, k);
      var before := if k == 0 then ConsoleRate(Rate(0, 0), 0, None, false)
                    else Forgetting(LineAt(times, limit, strikeLimit, k - 1).rate, times[k]);
      if IsStrike(times, limit, k)
      then line.rate.strikes == before.strikes + 1 && line.rate.lastStrike == Some(times[k])
           && line.decision == if line.rate.strikes >= strikeLimit then Trip else if line.rate.strikes == 1 then Notify else Suppress
      else line.rate.strikes == before.strikes && line.rate.lastStrike == before.lastStrike
           && line.decision == if k - WindowStart(times, SECOND, k) < limit then Allow else Suppress
  {
    LineMeaning(times, limit, strikeLimit, k);
    WindowIs(times, SECOND, k);
    if k > 0 {
      LineMeaning(times, limit, strikeLimit, k - 1);
      WindowIs(times, SECOND, k - 1);
    }
  }

  /** What is kept of the strikes after line `k`: the streak of the latest one, for ten seconds. */
  lemma {:induction false} StrikesKept(times: seq<nat>, limit: nat, strikeLimit: nat, k: nat)
    requires Sorted(times) && k < |times|
    ensures var rate, last := LineAt(times, limit, strikeLimit, k).rate, LastStrike(times, limit, k + 1);
      if last.Some? && times[k] - times[last.value] < 10 * SECOND
      then rate.lastStrike == Some(times[last.value]) && rate.strikes == Streak(times, limit, last.value)
      else rate.lastStrike == None && rate.strikes == 0
  {
    assert k > 0 ==> times[k - 1] <= times[k];
    hide LineAt, IsStrike, LastStrike, Streak, Sorted, WindowStart;
    StrikeStep(times, limit, strikeLimit, k);
    LatestOf(times, limit, k);
    if k > 0 { StrikesKept(times, limit, strikeLimit, k - 1); }
    if IsStrike(times, limit, k) { StreakUnfolds(times, limit, k); }
  }

  lemma LatestOf(times: seq<nat>, limit: nat, k: nat)
    requires k < |times|
    ensures LastStrike(times, limit, k + 1) == if IsStrike(times, limit, k) then Some(k) else LastStrike(times, limit, k)
    ensures k == 0 ==> LastStrike(times, limit, k) == None
  {}

  lemma StreakUnfolds(times: seq<nat>, limit: nat, k: nat)
    requires k < |times|
    ensures var last := LastStrike(times, limit, k);
      Streak(times, limit, k) ==
        1 + if last.Some? && times[k] - times[last.value] < 10 * SECOND then Streak(times, limit, last.value) else 0
  {}

  /** No strike came less than ten seconds before line `k`. */
  ghost predicate AfterPause(times: seq<nat>, limit: nat, k: nat)
    requires k < |times|
  {
    forall i :: 0 <= i < k && IsStrike(times, limit, i) ==> times[k] - times[i] >= 10 * SECOND
  }

  /** Exactly what becomes of a line.  The first `limit` of a window pass.  The
      next one trips if at least `strikeLimit` strikes, itself included, have
      come less than ten seconds after one another; otherwise it is noted if no
      strike came less than ten seconds before it.  All others are suppressed. */
  lemma LineDecidedIff(times: seq<nat>, limit: nat, strikeLimit: nat, k: nat)
    requires Sorted(times) && k < |times|
    ensures var decision := LineAt(times, limit, strikeLimit, k).decision;
      && (decision == Allow <==> k - WindowStart(times, 1_000_000_000, k) < limit)
      && (decision == Trip <==> IsStrike(times, limit, k) && ChainTo(times, limit, k, strikeLimit))
      && (decision == Notify <==> IsStrike(times, limit, k) && !ChainTo(times, limit, k, strikeLimit) && AfterPause(times, limit, k))
  {
    StrikeStep(times, limit, strikeLimit, k);
    StrikesKept(times, limit, strikeLimit, k);
    hide LineAt;
    if IsStrike(times, limit, k) {
      StreakMeaning(times, limit, k, strikeLimit);
      hide ChainTo;
      var last := LastStrike(times, limit, k);
      assert AfterPause(times, limit, k) <==> (last.Some? ==> times[k] - times[last.value] >= 10 * SECOND);
    }
  }

  /** Who never sends more than `limit` lines in less than a second is never throttled. */
  lemma QuietLinesPass(times: seq<nat>, limit: nat, strikeLimit: nat, k: nat)
    requires Sorted(times) && k < |times|
    requires forall i :: 0 <= i <= k && (i < k ==> times[k] - times[i] < SECOND) ==> k - i < limit
    ensures LineAt(times, limit, strikeLimit, k).decision == Allow
  {
    LineMeaning(times, limit, strikeLimit, k);
    RoomForTheQuiet(times, SECOND, limit, k);
  }
}
