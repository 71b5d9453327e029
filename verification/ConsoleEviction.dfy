/** A budget that evicts a server's history while a viewer reads it: the
    numbering restarts, and the viewer's next live entry is hidden from it. */
module ConsoleEviction {
  import opened Wrappers
  import opened Machine
  import opened ConsoleHistory
  import opened ConsoleHub
  import opened ConsoleLifecycle
  import opened ConsoleRounds
  import S = ConsoleStream

  /** What a line is cut to unless configured otherwise (src/security/protection.rs). */
  const DEFAULT_LINE_LENGTH: nat := 16384

  /** Three such lines fit the configured budget, and one server; four do not. */
  predicate FillsBudget(line: Line, budget: nat) {
    && HISTORY_BYTES <= budget <= MAX_TOTAL_BYTES && 3 * |line| <= HISTORY_BYTES
    && 3 * (ENTRY_SIZE + |line|) <= budget < 4 * (ENTRY_SIZE + |line|)
  }

  /** Lines as long as the default limit lets through do so for the smallest budget. */
  lemma DefaultLinesFillTheSmallestBudget(line: Line)
    requires |line| == DEFAULT_LINE_LENGTH
    ensures FillsBudget(line, HISTORY_BYTES)
  {}

  function Copies<T>(item: T, n: nat): Log<T> { Log(seq(n, _ => item), 0) }

  /** Logs of `m` lines of "a" and `n` of "b"; a server without lines has none. */
  function Logs<T>(m: nat, x: T, n: nat, y: T): map<Id, Log<T>> {
    (if m > 0 then map["a" := Copies(x, m)] else map[]) + (if n > 0 then map["b" := Copies(y, n)] else map[])
  }

  // ---- what the cache must do ------------------------------------------------------

  function Entries(line: Line, n: nat): (entries: seq<Entry>)
    ensures |entries| == n
  {
    seq(n, i requires 0 <= i => Entry(i + 1, line))
  }

  lemma Product(n: nat, length: nat)
    ensures n * (ENTRY_SIZE + length) == ENTRY_SIZE * n + n * length
    ensures n > 0 ==> n * length == (n - 1) * length + length
  {}

  lemma {:induction false} EntriesCharge(line: Line, n: nat)
    ensures Content(Entries(line, n)) == n * |line| && Charge(Entries(line, n)) == n * (ENTRY_SIZE + |line|)
  {
    if n > 0 {
      EntriesCharge(line, n - 1);
      assert Entries(line, n) == Entries(line, n - 1) + [Entry(n, line)];
      ContentAppend(Entries(line, n - 1), Entry(n, line));
    }
    ChargeBounded(Entries(line, n));
    Product(n, |line|);
  }

  /** Up to three such lines are not trimmed, whatever else is stored beside them within the budget. */
  lemma FewLinesStay(line: Line, n: nat, budget: nat)
    requires FillsBudget(line, budget) && n <= 3
    ensures TrimToLimits(Entries(line, n)) == Entries(line, n)
    ensures forall left :: n * (ENTRY_SIZE + |line|) <= left ==> TrimToBudget(Entries(line, n), left) == Entries(line, n)
  {
    EntriesCharge(line, n);
  }

  /** `logged` holds `n` lines of `id` and `m` of `other`. */
  ghost predicate Holds(logged: map<Id, Log<Line>>, id: Id, n: nat, other: Id, m: nat, line: Line) {
    && logged.Keys <= {id, other}
    && (if n > 0 then id in logged && logged[id] == Copies(line, n) else id !in logged)
    && (if m > 0 then other in logged && logged[other] == Copies(line, m) else other !in logged)
  }

  lemma StoredLines(history: History, line: Line, n: nat)
    requires n <= 3 && HistoryOk(history, Copies(line, n))
    ensures history.lines == Entries(line, n) && history.chargedBytes == n * (ENTRY_SIZE + |line|)
  {
    assert history.lines == Entries(line, n);
    EntriesCharge(line, n);
  }

  lemma NothingTrimmed(history: History, log: Log<Line>, line: Line, n: nat)
    requires HistoryOk(history, log) && log.items == Copies(line, n).items && |history.lines| == n
    ensures log == Copies(line, n)
  {}

  /** A push of such a line keeps the other server's lines while all of them
      fit, and evicts them when they do not. */
  lemma PushForced(before: map<Id, History>, logged: map<Id, Log<Line>>,
                   after: map<Id, History>, log: map<Id, Log<Line>>, id: Id, n: nat, other: Id, m: nat,
                   line: Line, entry: Entry, earlier: nat, clock: nat, budget: nat)
    requires FillsBudget(line, budget) && id != other && n <= 2 && m <= 3
    requires Holds(logged, id, n, other, m, line)
    requires Stored(before, logged, earlier) && Stored(after, log, clock)
    requires PushSpec(before, logged, after, log, id, line, entry, clock, budget)
    ensures Holds(log, id, n + 1, other, if n + 1 + m <= 3 then m else 0, line) && entry == Entry(n + 1, line)
  {
    hide HistoryOk, WithinLimits, Charge, Content, Total, TrimToLimits, TrimToBudget, EvictedLeastRecent,
         EvictedOnlyAsNeeded, OthersFirst, Distinct, FillsBudget;
    assert HistoryOf(before, id).lines == Entries(line, n) by {
      if n > 0 { StoredLines(before[id], line, n); }
    }
    assert entry == Entry(n + 1, line) && HistoryOf(before, id).lines + [entry] == Entries(line, n + 1);
    FewLinesStay(line, n + 1, budget);
    EntriesCharge(line, n + 1);
    if m > 0 {
      StoredLines(before[other], line, m);
      OtherStaysIff(before, after, id, other, line, n + 1, m, budget);
    }
    LinesBeside(after, id, other, line, if n + 1 + m <= 3 then m else 0, n + 1, budget);
    NothingTrimmed(after[id], log[id], line, n + 1);
  }

  lemma Together(n: nat, m: nat, charge: nat)
    ensures n + m > 3 ==> n * charge + m * charge >= 4 * charge
    ensures n + m <= 3 ==> n * charge + m * charge <= 3 * charge
  {
    assert n * charge + m * charge == (n + m) * charge;
  }

  /** What is left of the budget once the other server is accounted for. */
  lemma LinesBeside(after: map<Id, History>, id: Id, other: Id, line: Line, m: nat, n: nat, budget: nat)
    requires FillsBudget(line, budget) && id != other && n + m <= 3 && id in after && after.Keys <= {id, other}
    requires if m > 0 then other in after && after[other].chargedBytes == m * (ENTRY_SIZE + |line|) else other !in after
    ensures Total(after - {id}) == m * (ENTRY_SIZE + |line|)
    ensures n * (ENTRY_SIZE + |line|) <= SatSub(budget, Total(after - {id}))
  {
    if m > 0 {
      TotalWithout(after - {id}, other);
      assert after - {id} - {other} == map[];
    } else {
      assert after - {id} == map[];
    }
    Together(n, m, ENTRY_SIZE + |line|);
  }

  lemma OtherStaysIff(before: map<Id, History>, after: map<Id, History>, id: Id, other: Id, line: Line,
                      n: nat, m: nat, budget: nat)
    requires FillsBudget(line, budget) && id != other && id in after && after.Keys <= {id, other} && 0 < m <= 3
    requires before.Keys <= {id, other} && other in before && before[other].chargedBytes == m * (ENTRY_SIZE + |line|)
    requires other in after ==> after[other] == before[other]
    requires EvictedOnlyAsNeeded(before, after, id, n * (ENTRY_SIZE + |line|), budget)
    requires OthersFirst(after, id, n * (ENTRY_SIZE + |line|), budget)
    ensures other in after <==> n + m <= 3
  {
    Together(n, m, ENTRY_SIZE + |line|);
    if other in after {
      TotalWithout(after - {id}, other);
      assert after - {id} - {other} == map[];
    } else {
      assert after - {id} == map[];
    }
  }

  lemma HoldsLogs(logged: map<Id, Log<Line>>, m: nat, n: nat, line: Line)
    requires Holds(logged, "a", m, "b", n, line) || Holds(logged, "b", n, "a", m, line)
    ensures logged == Logs(m, line, n, line)
    ensures Holds(logged, "a", m, "b", n, line) && Holds(logged, "b", n, "a", m, line)
  {}

  method PushLine(cache: HistoryCache, id: Id, n: nat, other: Id, m: nat, line: Line) returns (entry: Entry)
    requires cache.Valid() && FillsBudget(line, cache.maximum) && id != other && n <= 2 && m <= 3
    requires Holds(cache.log, id, n, other, m, line)
    modifies cache
    ensures cache.Valid() && entry == Entry(n + 1, line)
    ensures Holds(cache.log, id, n + 1, other, if n + 1 + m <= 3 then m else 0, line)
  {
    hide PushSpec, Total, Stored, FillsBudget, Holds;
    entry := cache.Push(id, line);
    PushForced(old(cache.entries), old(cache.log), cache.entries, cache.log, id, n, other, m, line, entry,
      old(cache.clock), cache.clock, cache.maximum);
  }

  /** Three lines of "b", beside one of "a". */
  method FillUp(cache: HistoryCache, line: Line) returns (ghost logs: seq<map<Id, Log<Line>>>)
    requires cache.Valid() && FillsBudget(line, cache.maximum) && Holds(cache.log, "b", 0, "a", 1, line)
    modifies cache
    ensures cache.Valid() && Holds(cache.log, "b", 3, "a", 0, line)
    ensures logs == [Logs(1, line, 1, line), Logs(1, line, 2, line), Logs(0, line, 3, line)]
  {
    hide FillsBudget, Holds, Logs, Stored, Total;
    var entry := PushLine(cache, "b", 0, "a", 1, line);
    HoldsLogs(cache.log, 1, 1, line);
    logs := [cache.log];
    entry := PushLine(cache, "b", 1, "a", 1, line);
    HoldsLogs(cache.log, 1, 2, line);
    logs := logs + [cache.log];
    entry := PushLine(cache, "b", 2, "a", 1, line);
    HoldsLogs(cache.log, 0, 3, line);
    logs := logs + [cache.log];
  }

  /** Viewers of both servers take their replay. */
  method TakeReplays(cache: HistoryCache, line: Line) returns (replayed: seq<Line>, through: nat)
    requires cache.Valid() && Holds(cache.log, "b", 0, "a", 1, line)
    modifies cache
    ensures cache.Valid() && cache.log == old(cache.log)
    ensures replayed == [line] && through == 1
  {
    hide Stored, Total;
    replayed, through := cache.Snapshot("a");
    var nothing, zero := cache.Snapshot("b");
  }

  lemma HoldsNothing(line: Line, budget: nat)
    requires FillsBudget(line, budget)
    ensures HISTORY_BYTES <= budget <= MAX_TOTAL_BYTES && Holds(map[], "a", 0, "b", 0, line)
  {}

  /** What is logged after one line of "a", three of "b", and another of "a". */
  function CacheLogs(line: Line): seq<map<Id, Log<Line>>> {
    [Logs(1, line, 0, line), Logs(1, line, 1, line), Logs(1, line, 2, line), Logs(0, line, 3, line), Logs(1, line, 0, line)]
  }

  /** Served by the cache itself: three lines of "b" evict "a", and the next
      line of "a" evicts "b" and has a sequence number that the replay covered. */
  method RestartNumbering(line: Line, budget: nat)
    returns (replayed: seq<Line>, through: nat, next: Entry, ghost logs: seq<map<Id, Log<Line>>>)
    requires FillsBudget(line, budget)
    ensures replayed == [line] && through == 1 && next == Entry(1, line)
    ensures logs == CacheLogs(line)
  {
    hide FillsBudget, Holds, Logs, Stored, Total, Copies;
    HoldsNothing(line, budget);
    var cache := new HistoryCache(Some(budget));
    var entry := PushLine(cache, "a", 0, "b", 0, line);
    HoldsLogs(cache.log, 1, 0, line);
    replayed, through := TakeReplays(cache, line);
    ghost var filling := FillUp(cache, line);
    HoldsLogs(cache.log, 0, 3, line);
    next := PushLine(cache, "a", 0, "b", 3, line);
    HoldsLogs(cache.log, 1, 0, line);
    logs := [Logs(1, line, 0, line), filling[0], filling[1], filling[2], cache.log];
  }

  // ---- what the viewer sees ----------------------------------------------------------

  /** The lines of the two readers; reader 0 reads "a" and reader 1 reads "b". */
  function LineOf(r: nat, line: Line): S.Record { S.Record(line, r, 0) }

  function RecordLogs(m: nat, n: nat, line: Line): map<Id, Log<S.Record>> {
    Logs(m, LineOf(0, line), n, LineOf(1, line))
  }

  /** The hub while "a" is watched, and while "b" is watched too. */
  function Hubs(both: bool, stream: S.Stream): Hub {
    var first := Task("a", true, 0, 0, Waiting);
    if both then
      Hub(true, 2, INITIAL.(desired := {"a", "b"}, readers := map["a" := 0, "b" := 1]), Free, map["a" := 0, "b" := 1],
        ["a", "b"], [first, Task("b", true, 0, 1, Waiting)], map[], [0, 0], {}, stream)
    else
      Hub(true, 2, INITIAL.(desired := {"a"}, readers := map["a" := 0]), Free, map["a" := 0],
        ["a"], [first], map[], [0], {}, stream)
  }

  /** The viewer of "a", before and after it has replayed the first line. */
  function ViewerA(queue: seq<S.Item>, phase: S.Phase): S.Viewer { S.Viewer("a", 0, 0, 0, queue, phase, true) }

  function Replayed(line: Line): S.Phase { S.Streaming(0, 0, 1, [LineOf(0, line)]) }

  /** The entry of line `line` of "a" in an incarnation of its history; both are its first. */
  function FirstOf(incarnation: nat, line: Line): S.Item { S.Item("a", incarnation, 1, LineOf(0, line)) }

  /** The viewer of "b" once `n` lines have been sent to it. */
  function ViewerB(n: nat, line: Line): S.Viewer {
    S.Viewer("b", 1, 0, 0, seq(n, i requires 0 <= i => S.Item("b", 0, i + 1, LineOf(1, line))), S.Streaming(0, 0, 0, []), true)
  }

  function Viewers(n: nat, line: Line): seq<S.Viewer> {
    [ViewerA([FirstOf(0, line)], Replayed(line)), ViewerB(n, line)]
  }

  lemma Attach(line: Line) returns (states: seq<Hub>)
    ensures Connects(states, Opening("a")) && states[0] == Initial(true, 2)
    ensures states[2] == Hubs(false, S.Stream(map[], map[], map[], [ViewerA([], S.Attaching)]))
  {
    states := OpeningRound(Initial(true, 2), "a");
    hide Connects;
    AttachedFirst();
  }

  lemma AttachedFirst()
    ensures var h := Initial(true, 2);
      InstallFor(h.(lc := INITIAL.(desired := {"a"}), holder := Subscribing("a")), "a")
        == Hubs(false, S.Stream(map[], map[], map[], [ViewerA([], S.Attaching)]))
  {
  }

  lemma FirstLine(line: Line) returns (states: seq<Hub>)
    ensures Connects(states, Reading(0, line, RecordLogs(1, 0, line)))
    ensures states[0] == Hubs(false, S.Stream(map[], map[], map[], [ViewerA([], S.Attaching)]))
    ensures states[3] == Hubs(false, S.Stream(RecordLogs(1, 0, line), map[], map[], [ViewerA([FirstOf(0, line)], S.Attaching)]))
  {
    var viewers, after := [ViewerA([], S.Attaching)], RecordLogs(1, 0, line);
    var stream, item := S.Stream(map[], map[], map[], viewers), FirstOf(0, line);
    states := ReadingRound(Hubs(false, stream), 0, line, after);
    hide Connects;
    assert S.Push(stream, 0, "a", LineOf(0, line), after) == S.Stream(after, map[], map[0 := item], viewers);
    SentToA(S.Stream(after, map[], map[0 := item], viewers), [], item);
    assert [] + [item] == [item];
  }

  lemma SentToA(s: S.Stream, queue: seq<S.Item>, item: S.Item)
    requires s.viewers != [] && s.viewers[0] == ViewerA(queue, s.viewers[0].phase) && s.flights == map[0 := item]
    requires forall v :: 1 <= v < |s.viewers| ==> s.viewers[v].channel != 0
    ensures S.Send(s, 0, 0) == s.(flights := map[], viewers := s.viewers[0 := s.viewers[0].(queue := queue + [item])])
  {
    assert s.flights - {0} == map[];
  }

  lemma FirstReplay(line: Line) returns (states: seq<Hub>)
    ensures Connects(states, [TakeSnapshot(0)])
    ensures states[0] == Hubs(false, S.Stream(RecordLogs(1, 0, line), map[], map[], [ViewerA([FirstOf(0, line)], S.Attaching)]))
    ensures states[1] == Hubs(false, S.Stream(RecordLogs(1, 0, line), map[], map[], [ViewerA([FirstOf(0, line)], Replayed(line))]))
  {
    var h := Hubs(false, S.Stream(RecordLogs(1, 0, line), map[], map[], [ViewerA([FirstOf(0, line)], S.Attaching)]));
    states := [h, Step(h, TakeSnapshot(0))];
    assert LogOf(h.stream.logs, "a") == Copies(LineOf(0, line), 1);
    assert Copies(LineOf(0, line), 1).items[0..] == [LineOf(0, line)];
  }

  lemma AttachOther(line: Line) returns (states: seq<Hub>)
    ensures Connects(states, Opening("b") + [TakeSnapshot(1)])
    ensures states[0] == Hubs(false, S.Stream(RecordLogs(1, 0, line), map[], map[], [ViewerA([FirstOf(0, line)], Replayed(line))]))
    ensures states[3] == Hubs(true, S.Stream(RecordLogs(1, 0, line), map[], map[], Viewers(0, line)))
  {
    var viewer := ViewerA([FirstOf(0, line)], Replayed(line));
    var h := Hubs(false, S.Stream(RecordLogs(1, 0, line), map[], map[], [viewer]));
    assert LiveIds(h) == {"a"};
    var arriving := OpeningRound(h, "b");
    AttachedOther(line);
    states := Joined(arriving, Opening("b"), [arriving[2], Step(arriving[2], TakeSnapshot(1))], [TakeSnapshot(1)]);
  }

  /** The viewer of "b" before it finds no history to replay. */
  function Arrived(line: Line): Hub {
    Hubs(true, S.Stream(RecordLogs(1, 0, line), map[], map[],
      [ViewerA([FirstOf(0, line)], Replayed(line)), S.Viewer("b", 1, 0, 0, [], S.Attaching, true)]))
  }

  lemma AttachedOther(line: Line)
    ensures var h := Hubs(false, S.Stream(RecordLogs(1, 0, line), map[], map[], [ViewerA([FirstOf(0, line)], Replayed(line))]));
      InstallFor(h.(lc := h.lc.(desired := {"a"} + {"b"}), holder := Subscribing("b")), "b") == Arrived(line)
    ensures Enabled(Arrived(line), TakeSnapshot(1))
    ensures Step(Arrived(line), TakeSnapshot(1)) == Hubs(true, S.Stream(RecordLogs(1, 0, line), map[], map[], Viewers(0, line)))
  {
    var s := Arrived(line).stream;
    assert "b" !in s.logs && LogOf(s.logs, "b").items[0..] == [];
    assert S.Snapshot(s, 1).viewers[1] == ViewerB(0, line);
  }

  /** What is logged after `n` lines of "b": the third one evicts the history of "a". */
  function Filling(n: nat, line: Line): map<Id, Log<S.Record>> { RecordLogs(if n < 3 then 1 else 0, n, line) }

  /** The hub after `n` lines of "b". */
  function Filled(n: nat, line: Line): Hub {
    Hubs(true, S.Stream(Filling(n, line), if n < 3 then map[] else map["a" := 1], map[], Viewers(n, line)))
  }

  /** A line of "b" is pushed beside `n` others and reaches the viewer of "b". */
  lemma NextLine(line: Line, n: nat) returns (states: seq<Hub>)
    requires n <= 2
    ensures Connects(states, Reading(1, line, Filling(n + 1, line)))
    ensures states[0] == Filled(n, line) && states[3] == Filled(n + 1, line)
  {
    var before, after, h := Filling(n, line), Filling(n + 1, line), Filled(n, line);
    var stream, item := h.stream, S.Item("b", 0, n + 1, LineOf(1, line));
    CopiesGrow(LineOf(1, line), n);
    assert PushEffect(before, after, "b", LineOf(1, line));
    states := ReadingRound(h, 1, line, after);
    hide Connects;
    assert before.Keys - after.Keys == if n < 2 then {} else {"a"};
    var drops := if n < 2 then map[] else map["a" := 1];
    assert S.Push(stream, 1, "b", LineOf(1, line), after) == S.Stream(after, drops, map[1 := item], stream.viewers);
    SentToB(S.Stream(after, drops, map[1 := item], stream.viewers), n, line, item);
  }

  lemma CopiesGrow<T>(item: T, n: nat)
    ensures Copies(item, n + 1).items == Copies(item, n).items + [item]
  {}

  lemma SentToB(s: S.Stream, n: nat, line: Line, item: S.Item)
    requires s.viewers == Viewers(n, line) && s.flights == map[1 := item] && item == S.Item("b", 0, n + 1, LineOf(1, line))
    ensures S.Send(s, 1, 1) == s.(flights := map[], viewers := Viewers(n + 1, line))
  {
    assert s.flights - {1} == map[];
    assert ViewerB(n, line).queue + [item] == ViewerB(n + 1, line).queue;
    assert S.Send(s, 1, 1).viewers == Viewers(n + 1, line);
  }

  /** The next line of "a" evicts "b" and is the first of the next incarnation. */
  lemma HiddenLine(line: Line) returns (states: seq<Hub>)
    ensures Connects(states, Reading(0, line, RecordLogs(1, 0, line)))
    ensures states[0] == Filled(3, line)
    ensures states[3] == Hubs(true, S.Stream(RecordLogs(1, 0, line), map["a" := 1, "b" := 1], map[],
      [ViewerA([FirstOf(0, line), FirstOf(1, line)], Replayed(line)), ViewerB(3, line)]))
  {
    var before, after, drops := RecordLogs(0, 3, line), RecordLogs(1, 0, line), map["a" := 1, "b" := 1];
    var stream, item := S.Stream(before, map["a" := 1], map[], Viewers(3, line)), FirstOf(1, line);
    CopiesGrow(LineOf(0, line), 0);
    assert PushEffect(before, after, "a", LineOf(0, line));
    states := ReadingRound(Hubs(true, stream), 0, line, after);
    hide Connects;
    assert before.Keys - after.Keys == {"b"};
    assert S.Push(stream, 0, "a", LineOf(0, line), after) == S.Stream(after, drops, map[0 := item], stream.viewers);
    SentToA(S.Stream(after, drops, map[0 := item], stream.viewers), [FirstOf(0, line)], item);
    assert [FirstOf(0, line)] + [item] == [FirstOf(0, line), item];
  }

  /** What a viewer that replayed one line makes of the first line of the next incarnation. */
  lemma NextIncarnationIsHidden(line: Line)
    ensures var viewer := ViewerA([FirstOf(0, line), FirstOf(1, line)], Replayed(line));
      S.Shown(viewer) == [FirstOf(0, line)] && !S.Same(FirstOf(0, line), FirstOf(1, line))
  {
    var live := S.Live([FirstOf(0, line), FirstOf(1, line)], 1);
    S.LiveFilters([FirstOf(0, line), FirstOf(1, line)], 1);
    HeadIsIn(live);
  }

  lemma HeadIsIn(items: seq<S.Item>)
    ensures items != [] ==> items[0] in items
  {}

  /** "a" is watched and read, then "b" is watched ... */
  function Watching(line: Line): seq<Action> {
    Opening("a") + Reading(0, line, RecordLogs(1, 0, line)) + [TakeSnapshot(0)] + (Opening("b") + [TakeSnapshot(1)])
  }

  /** ... and read three times ... */
  function Refilling(line: Line): seq<Action> {
    Reading(1, line, Filling(1, line)) + Reading(1, line, Filling(2, line)) + Reading(1, line, Filling(3, line))
  }

  /** ... and "a" once more; the pushes are those of `RestartNumbering`. */
  function Evicting(line: Line): seq<Action> { Refilling(line) + Reading(0, line, RecordLogs(1, 0, line)) }

  lemma Watched(line: Line) returns (states: seq<Hub>)
    ensures Connects(states, Watching(line)) && states[0] == Initial(true, 2)
    ensures states[9] == Filled(0, line)
  {
    var first := Reading(0, line, RecordLogs(1, 0, line));
    hide Connects, Reading, RecordLogs, Hubs, Viewers, ViewerA, ViewerB;
    states := Attach(line);
    var round := FirstLine(line);
    states := Joined(states, Opening("a"), round, first);
    round := FirstReplay(line);
    states := Joined(states, Opening("a") + first, round, [TakeSnapshot(0)]);
    round := AttachOther(line);
    states := Joined(states, Opening("a") + first + [TakeSnapshot(0)], round, Opening("b") + [TakeSnapshot(1)]);
  }

  lemma TwoLines(line: Line) returns (states: seq<Hub>)
    ensures Connects(states, Reading(1, line, Filling(1, line)) + Reading(1, line, Filling(2, line)))
    ensures states[0] == Filled(0, line) && states[6] == Filled(2, line)
  {
    hide Connects, Reading, Filling, Filled;
    states := NextLine(line, 0);
    var round := NextLine(line, 1);
    states := Joined(states, Reading(1, line, Filling(1, line)), round, Reading(1, line, Filling(2, line)));
  }

  lemma Refilled(line: Line) returns (states: seq<Hub>)
    ensures Connects(states, Refilling(line)) && states[0] == Filled(0, line) && states[9] == Filled(3, line)
  {
    hide Connects, Reading, Filling, Filled;
    var two := Reading(1, line, Filling(1, line)) + Reading(1, line, Filling(2, line));
    states := TwoLines(line);
    var round := NextLine(line, 2);
    states := Joined(states, two, round, Reading(1, line, Filling(3, line)));
  }

  lemma Evicted(line: Line) returns (states: seq<Hub>)
    ensures Connects(states, Evicting(line)) && states[0] == Filled(0, line)
    ensures states[12] == Hubs(true, S.Stream(RecordLogs(1, 0, line), map["a" := 1, "b" := 1], map[],
      [ViewerA([FirstOf(0, line), FirstOf(1, line)], Replayed(line)), ViewerB(3, line)]))
  {
    hide Connects, Reading, RecordLogs, Hubs, Viewers, ViewerA, ViewerB, Filled;
    states := Refilled(line);
    var round := HiddenLine(line);
    states := Joined(states, Refilling(line), round, Reading(0, line, RecordLogs(1, 0, line)));
  }

  /** The logged lines without their authors. */
  function Texts(logs: map<Id, Log<S.Record>>): map<Id, Log<Line>> {
    map id | id in logs :: TextsOf(logs[id])
  }

  function TextsOf(log: Log<S.Record>): Log<Line> {
    Log(seq<Line>(|log.items|, i requires 0 <= i < |log.items| => log.items[i].line), log.trimmed)
  }

  lemma SameTexts(m: nat, n: nat, line: Line)
    ensures Texts(RecordLogs(m, n, line)) == Logs(m, line, n, line)
  {
    assert TextsOf(Copies(LineOf(0, line), m)) == Copies(line, m) && TextsOf(Copies(LineOf(1, line), n)) == Copies(line, n);
    assert RecordLogs(m, n, line).Keys == Logs(m, line, n, line).Keys;
  }

  /** The pushes of the run are those that the cache has to make. */
  lemma PushesAreTheCaches(line: Line)
    ensures |Watching(line) + Evicting(line)| == 21
    ensures var actions := Watching(line) + Evicting(line);
      forall k | 0 <= k < 5 :: var push := [3, 10, 13, 16, 19][k];
        actions[push].ReaderPush? && Texts(actions[push].after) == CacheLogs(line)[k]
  {
    SameTexts(1, 0, line);
    SameTexts(1, 1, line);
    SameTexts(1, 2, line);
    SameTexts(0, 3, line);
    hide Texts, RecordLogs, Logs;
  }

  /** Why completeness needs the history to survive: from an empty hub with two
      readers, once lines of another server have evicted it, the numbering
      restarts, and the next live entry is received but never shown. */
  lemma EvictionCanHideALiveEntry(line: Line) returns (states: seq<Hub>)
    ensures IsRun(states, Watching(line) + Evicting(line)) && |states| == 22 && Attached(states[21], 0)
    ensures var viewer := states[21].stream.viewers[0];
      && viewer.queue == [FirstOf(0, line), FirstOf(1, line)]
      && viewer.phase.Streaming? && viewer.phase.from + |viewer.phase.replayed| == viewer.phase.through
      && S.Shown(viewer) == [FirstOf(0, line)] && !S.Same(FirstOf(0, line), FirstOf(1, line))
  {
    states := Watched(line);
    var round := Evicted(line);
    states := Joined(states, Watching(line), round, Evicting(line));
    NextIncarnationIsHidden(line);
    hide Connects, S.Shown;
  }
}
