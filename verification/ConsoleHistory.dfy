/** Bounded per-server console history with a global least-recently-used budget
    (src/grpc/services/console/history.rs).

    `HistoryCache` keeps the byte accounting of the original, including its
    saturating arithmetic.  Beside it runs a ghost log of every line pushed to a
    server since its history was last dropped; `Valid` says the stored lines are
    exactly the untrimmed end of that log. */
module ConsoleHistory {
  import opened Machine
  import opened Wrappers

  const HISTORY_LINES: nat := 200
  const HISTORY_BYTES: nat := 64 * 1024
  const DEFAULT_TOTAL_BYTES: nat := 64 * 1024 * 1024
  const MAX_TOTAL_BYTES: nat := 1024 * 1024 * 1024
  /** An entry is a `u64` and a two-word string handle. */
  const ENTRY_SIZE: nat := 24

  type Id = string
  /** A console line, as its UTF-8 bytes; Rust allocations never exceed `isize::MAX` bytes. */
  type Line = s: seq<byte> | |s| <= ISIZE_MAX witness []

  datatype Entry = Entry(sequence: nat, line: Line)

  datatype History = History(
    lines: seq<Entry>, contentBytes: nat, chargedBytes: nat, nextSequence: nat, lastAccess: nat)

  /** Everything pushed since the last drop, and how many of those were trimmed again. */
  datatype Log<T> = Log(items: seq<T>, trimmed: nat)

  const EMPTY_HISTORY: History := History([], 0, 0, 0, 0)

  function EmptyLog<T>(): Log<T> { Log([], 0) }

  function LogOf<T>(logs: map<Id, Log<T>>, id: Id): Log<T> {
    if id in logs then logs[id] else EmptyLog()
  }

  /** What a push may do to the logs: append to its own server, trim that
      server's oldest lines, and drop other servers whole. */
  ghost predicate PushEffect<T>(before: map<Id, Log<T>>, after: map<Id, Log<T>>, id: Id, item: T) {
    && id in after
    && after[id].items == LogOf(before, id).items + [item]
    && LogOf(before, id).trimmed <= after[id].trimmed <= |after[id].items|
    && forall other :: other in after && other != id ==> other in before && after[other] == before[other]
  }

  // ---- byte accounting -------------------------------------------------------

  function EntryCharge(entry: Entry): nat { SatAdd(ENTRY_SIZE, |entry.line|) }

  function Content(lines: seq<Entry>): nat {
    if lines == [] then 0 else |lines[0].line| + Content(lines[1..])
  }

  function Charge(lines: seq<Entry>): nat {
    if lines == [] then 0 else EntryCharge(lines[0]) + Charge(lines[1..])
  }

  lemma {:induction false} ContentAppend(lines: seq<Entry>, entry: Entry)
    ensures Content(lines + [entry]) == Content(lines) + |entry.line|
    ensures Charge(lines + [entry]) == Charge(lines) + EntryCharge(entry)
  {
    if lines != [] {
      assert (lines + [entry])[1..] == lines[1..] + [entry];
      ContentAppend(lines[1..], entry);
    }
  }

  lemma {:induction false} ChargeBounded(lines: seq<Entry>)
    ensures Charge(lines) == 24 * |lines| + Content(lines)
    ensures Content(lines) == |Bytes(lines)|
  {
    if lines != [] { ChargeBounded(lines[1..]); }
  }

  /** All the bytes of the lines, one after the other. */
  function Bytes(lines: seq<Entry>): seq<byte> {
    if lines == [] then [] else lines[0].line + Bytes(lines[1..])
  }

  ghost function Total(entries: map<Id, History>): nat {
    if entries == map[] then 0 else
      var id :| id in entries;
      entries[id].chargedBytes + Total(entries - {id})
  }

  lemma {:induction false} TotalWithout(entries: map<Id, History>, id: Id)
    requires id in entries
    ensures Total(entries) == entries[id].chargedBytes + Total(entries - {id})
    decreases |entries|
  {
    var first :| first in entries && Total(entries) == entries[first].chargedBytes + Total(entries - {first});
    if first != id {
      TotalWithout(entries - {first}, id);
      TotalWithout(entries - {id}, first);
      assert entries - {first} - {id} == entries - {id} - {first};
    }
  }

  lemma TotalUpdate(entries: map<Id, History>, id: Id, history: History)
    ensures Total(entries[id := history]) == Total(entries - {id}) + history.chargedBytes
  {
    TotalWithout(entries[id := history], id);
    assert entries[id := history] - {id} == entries - {id};
  }

  // ---- which suffix survives trimming -----------------------------------------

  predicate WithinLimits(lines: seq<Entry>) {
    |lines| <= HISTORY_LINES && Content(lines) <= HISTORY_BYTES
  }

  function TrimToLimits(lines: seq<Entry>): seq<Entry> {
    if lines == [] || WithinLimits(lines) then lines else TrimToLimits(lines[1..])
  }

  function TrimToBudget(lines: seq<Entry>, budget: nat): seq<Entry> {
    if lines == [] || Charge(lines) <= budget then lines else TrimToBudget(lines[1..], budget)
  }

  /** Trimming keeps the longest suffix that obeys both per-server limits. */
  lemma {:induction false} TrimToLimitsIsLongestSuffix(lines: seq<Entry>)
    ensures |TrimToLimits(lines)| <= |lines|
    ensures TrimToLimits(lines) == lines[|lines| - |TrimToLimits(lines)|..]
    ensures |TrimToLimits(lines)| <= 200 && Content(TrimToLimits(lines)) <= 65536
    ensures forall k :: 0 <= k < |lines| - |TrimToLimits(lines)| ==> |lines[k..]| > 200 || Content(lines[k..]) > 65536
  {
    if lines != [] && !WithinLimits(lines) {
      TrimToLimitsIsLongestSuffix(lines[1..]);
      var kept := |TrimToLimits(lines)|;
      assert lines[|lines| - kept..] == lines[1..][|lines| - 1 - kept..];
      forall k | 0 <= k < |lines| - kept ensures !WithinLimits(lines[k..]) {
        if k == 0 { assert lines[0..] == lines; } else { assert lines[k..] == lines[1..][k - 1..]; }
      }
    }
  }

  /** The budget keeps the longest suffix it can pay for. */
  lemma {:induction false} TrimToBudgetIsLongestSuffix(lines: seq<Entry>, budget: nat)
    ensures |TrimToBudget(lines, budget)| <= |lines|
    ensures TrimToBudget(lines, budget) == lines[|lines| - |TrimToBudget(lines, budget)|..]
    ensures Charge(TrimToBudget(lines, budget)) <= budget
    ensures forall k :: 0 <= k < |lines| - |TrimToBudget(lines, budget)| ==> Charge(lines[k..]) > budget
  {
    if lines != [] && Charge(lines) > budget {
      TrimToBudgetIsLongestSuffix(lines[1..], budget);
      var kept := |TrimToBudget(lines, budget)|;
      assert lines[|lines| - kept..] == lines[1..][|lines| - 1 - kept..];
      forall k | 0 <= k < |lines| - kept ensures Charge(lines[k..]) > budget {
        if k == 0 { assert lines[0..] == lines; } else { assert lines[k..] == lines[1..][k - 1..]; }
      }
    }
  }

  // ---- the cache ---------------------------------------------------------------

  /** One server's stored lines against the log of what was pushed to it. */
  ghost predicate HistoryOk(history: History, log: Log<Line>) {
    && log.trimmed <= |log.items|
    && |history.lines| == |log.items| - log.trimmed
    && (forall i :: 0 <= i < |history.lines| ==>
      history.lines[i] == Entry(Min(log.trimmed + i + 1, U64_MAX), log.items[log.trimmed + i]))
    && history.nextSequence == Min(|log.items|, U64_MAX)
    && history.contentBytes == Content(history.lines)
    && history.chargedBytes == Charge(history.lines)
  }

  /** The stored record of a server; an absent one counts as empty. */
  function HistoryOf(entries: map<Id, History>, id: Id): History {
    if id in entries then entries[id] else EMPTY_HISTORY
  }

  ghost predicate Distinct(entries: map<Id, History>) {
    forall a, b :: a in entries && b in entries && a != b ==> entries[a].lastAccess != entries[b].lastAccess
  }

  /** Every victim was used no later than every other survivor, and strictly
      earlier as long as the access clock has not saturated. */
  ghost predicate EvictedLeastRecent(before: map<Id, History>, after: map<Id, History>, id: Id, strictly: bool) {
    forall victim, survivor ::
      victim in before && victim !in after && survivor in after && survivor in before && survivor != id ==>
        && before[victim].lastAccess <= before[survivor].lastAccess
        && (strictly ==> before[victim].lastAccess < before[survivor].lastAccess)
  }

  ghost predicate LastVictim(before: map<Id, History>, after: map<Id, History>, victim: Id) {
    && victim in before && victim !in after
    && forall other :: other in before && other !in after ==>
      before[other].lastAccess <= before[victim].lastAccess
  }

  /** Eviction stops as soon as it can: with the last victim still stored, the
      survivors and `kept` would not fit. */
  ghost predicate EvictedOnlyAsNeeded(before: map<Id, History>, after: map<Id, History>, id: Id, kept: nat, maximum: nat) {
    (exists victim :: victim in before && victim !in after) ==>
      exists victim :: LastVictim(before, after, victim) &&
        Total(after - {id}) + before[victim].chargedBytes + kept > maximum
  }

  lemma {:induction false} TotalSplit(entries: map<Id, History>, id: Id)
    ensures Total(entries) == Total(entries - {id}) + HistoryOf(entries, id).chargedBytes
  {
    if id in entries { TotalWithout(entries, id); } else { assert entries - {id} == entries; }
  }

  predicate LeastOf(entries: map<Id, History>, ids: set<Id>, oldest: Id)
    requires ids <= entries.Keys
  {
    oldest in ids && forall other :: other in ids ==> entries[oldest].lastAccess <= entries[other].lastAccess
  }

  lemma {:induction false} LeastRecentExists(entries: map<Id, History>, ids: set<Id>) returns (oldest: Id)
    requires ids != {} && ids <= entries.Keys
    ensures LeastOf(entries, ids, oldest)
    decreases |ids|
  {
    var first :| first in ids;
    var others := ids - {first};
    oldest := first;
    if others != {} {
      var rest := LeastRecentExists(entries, others);
      if entries[rest].lastAccess < entries[first].lastAccess { oldest := rest; }
      forall other | other in ids ensures entries[oldest].lastAccess <= entries[other].lastAccess {
        assert other == first || other in others;
      }
    } else {
      forall other | other in ids ensures other == first { assert other !in others; }
    }
  }

  /** The stored records agree with the logs, and the access stamps are usable for LRU. */
  ghost predicate Stored(entries: map<Id, History>, log: map<Id, Log<Line>>, clock: nat) {
    && clock <= U64_MAX
    && entries.Keys == log.Keys
    && (forall id :: id in entries ==>
      && HistoryOk(entries[id], log[id])
      && WithinLimits(entries[id].lines)
      && entries[id].lastAccess <= clock)
    && (clock < U64_MAX ==> Distinct(entries))
  }

  lemma StoreRecord(entries: map<Id, History>, log: map<Id, Log<Line>>, before: nat, clock: nat,
                    id: Id, history: History, items: Log<Line>)
    requires Stored(entries, log, before) && clock == SatAdd(before, 1)
    requires HistoryOk(history, items) && WithinLimits(history.lines) && history.lastAccess == clock
    ensures Stored(entries[id := history], log[id := items], clock)
  {
    var entries', log' := entries[id := history], log[id := items];
    assert entries'.Keys == log'.Keys;
    forall other | other in entries' ensures
      HistoryOk(entries'[other], log'[other]) && WithinLimits(entries'[other].lines) && entries'[other].lastAccess <= clock
    {
      if other != id { assert other in entries; }
    }
    if clock < U64_MAX {
      forall a, b | a in entries' && b in entries' && a != b ensures entries'[a].lastAccess != entries'[b].lastAccess {
        if a != id { assert a in entries; }
        if b != id { assert b in entries; }
      }
    }
  }

  lemma RestoreRecord(entries: map<Id, History>, log: map<Id, Log<Line>>, clock: nat,
                      id: Id, history: History, items: Log<Line>)
    requires Stored(entries, log, clock) && id in entries
    requires HistoryOk(history, items) && WithinLimits(history.lines) && history.lastAccess == entries[id].lastAccess
    ensures Stored(entries[id := history], log[id := items], clock)
  {
    var entries', log' := entries[id := history], log[id := items];
    assert entries'.Keys == log'.Keys;
    if clock < U64_MAX {
      forall a, b | a in entries' && b in entries' && a != b ensures entries'[a].lastAccess != entries'[b].lastAccess {
        assert a in entries && b in entries;
      }
    }
  }

  /** Pops the oldest lines until the per-server limits hold. */
  method PopToLimits(stored: History, ghost logged: Log<Line>, total: nat)
    returns (history: History, ghost items: Log<Line>, charged: nat)
    requires HistoryOk(stored, logged) && stored.chargedBytes <= total
    ensures HistoryOk(history, items) && items.items == logged.items && logged.trimmed <= items.trimmed
    ensures history.lines == TrimToLimits(stored.lines) && history.lastAccess == stored.lastAccess
    ensures charged == total - stored.chargedBytes + history.chargedBytes
  {
    history, items, charged := stored, logged, total;
    while |history.lines| > HISTORY_LINES || history.contentBytes > HISTORY_BYTES
      invariant HistoryOk(history, items) && items.items == logged.items && logged.trimmed <= items.trimmed
      invariant TrimToLimits(stored.lines) == TrimToLimits(history.lines)
      invariant history.lastAccess == stored.lastAccess
      invariant charged == total - stored.chargedBytes + history.chargedBytes
      decreases |history.lines|
    {
      if history.lines == [] { break; }
      var removed := history.lines[0];
      history := history.(
        lines := history.lines[1..],
        contentBytes := SatSub(history.contentBytes, |removed.line|),
        chargedBytes := SatSub(history.chargedBytes, EntryCharge(removed)));
      charged := SatSub(charged, EntryCharge(removed));
      items := items.(trimmed := items.trimmed + 1);
    }
  }

  /** Pops the oldest lines until the global charge is within the budget. */
  method PopToBudget(stored: History, ghost logged: Log<Line>, total: nat, maximum: nat)
    returns (history: History, ghost items: Log<Line>, charged: nat)
    requires HistoryOk(stored, logged) && WithinLimits(stored.lines) && stored.chargedBytes <= total
    ensures HistoryOk(history, items) && items.items == logged.items && logged.trimmed <= items.trimmed
    ensures WithinLimits(history.lines) && history.lastAccess == stored.lastAccess
    ensures history.lines == TrimToBudget(stored.lines, SatSub(maximum, total - stored.chargedBytes))
    ensures charged == total - stored.chargedBytes + history.chargedBytes
    ensures charged <= maximum || (history.lines == [] && history.chargedBytes == 0)
  {
    history, items, charged := stored, logged, total;
    ghost var budget := SatSub(maximum, total - stored.chargedBytes);
    while charged > maximum
      invariant HistoryOk(history, items) && items.items == logged.items && logged.trimmed <= items.trimmed
      invariant WithinLimits(history.lines) && history.lastAccess == stored.lastAccess
      invariant TrimToBudget(stored.lines, budget) == TrimToBudget(history.lines, budget)
      invariant charged == total - stored.chargedBytes + history.chargedBytes
      decreases |history.lines|
    {
      if history.lines == [] { break; }
      var removed := history.lines[0];
      history := history.(
        lines := history.lines[1..],
        contentBytes := SatSub(history.contentBytes, |removed.line|),
        chargedBytes := SatSub(history.chargedBytes, EntryCharge(removed)));
      charged := SatSub(charged, EntryCharge(removed));
      items := items.(trimmed := items.trimmed + 1);
    }
  }

  lemma DropRecord(entries: map<Id, History>, log: map<Id, Log<Line>>, clock: nat, id: Id)
    requires Stored(entries, log, clock)
    ensures Stored(entries - {id}, log - {id}, clock)
  {}

  /** `after` holds some of the records of `before`, unchanged, and always `id`'s. */
  ghost predicate Shrunk<T>(before: map<Id, T>, after: map<Id, T>, id: Id) {
    && id in after
    && forall other :: other in after ==> other in before && after[other] == before[other]
  }

  ghost predicate Oldest(entries: map<Id, History>, id: Id, oldest: Id) {
    && oldest in entries && oldest != id
    && forall other :: other in entries && other != id ==> entries[oldest].lastAccess <= entries[other].lastAccess
  }

  lemma OldestExists(entries: map<Id, History>, id: Id)
    requires id in entries && |entries| > 1
    ensures exists oldest :: Oldest(entries, id, oldest)
  {
    assert |entries.Keys - {id}| == |entries.Keys| - 1;
    var others := entries.Keys - {id};
    var oldest := LeastRecentExists(entries, others);
    assert forall other :: other in entries && other != id ==> other in others;
    assert Oldest(entries, id, oldest);
  }

  /** One eviction keeps the account of which servers may be evicted. */
  lemma EvictOne(start: map<Id, History>, entries: map<Id, History>, id: Id, oldest: Id, maximum: nat)
    requires Shrunk(start, entries, id) && Oldest(entries, id, oldest)
    requires EvictedLeastRecent(start, entries, id, Distinct(start - {id}))
    requires Total(entries) > maximum
    ensures Shrunk(start, entries - {oldest}, id)
    ensures EvictedLeastRecent(start, entries - {oldest}, id, Distinct(start - {id}))
    ensures EvictedOnlyAsNeeded(start, entries - {oldest}, id, entries[id].chargedBytes, maximum)
  {
    var after := entries - {oldest};
    TotalWithout(entries, oldest);
    TotalWithout(after, id);
    assert forall other :: other in entries && other != oldest ==> other in after;
    assert LastVictim(start, after, oldest) by {
      forall other | other in start && other !in after ensures start[other].lastAccess <= start[oldest].lastAccess {
        if other in entries { assert other == oldest; }
      }
    }
    if Distinct(start - {id}) {
      forall victim, survivor | victim in start && victim !in after && survivor in after && survivor in start && survivor != id
        ensures start[victim].lastAccess < start[survivor].lastAccess
      {
        if victim == oldest {
          assert victim in start - {id} && survivor in start - {id};
          assert (start - {id})[victim].lastAccess != (start - {id})[survivor].lastAccess;
        } else {
          assert victim !in entries;
        }
      }
    }
  }

  /** A server's own lines pay for the budget only once no other server is left. */
  ghost predicate OthersFirst(after: map<Id, History>, id: Id, kept: nat, maximum: nat) {
    after.Keys == {id} || Total(after - {id}) + kept <= maximum
  }

  /** What fitting the budget may do once `id` has been pushed to. */
  ghost predicate EvictSpec(before: map<Id, History>, logged: map<Id, Log<Line>>,
                            after: map<Id, History>, log: map<Id, Log<Line>>, id: Id, maximum: nat) {
    && id in before && id in logged && id in after && id in log
    && Shrunk(before[id := after[id]], after, id)
    && Shrunk(logged[id := log[id]], log, id)
    && log[id].items == logged[id].items
    && logged[id].trimmed <= log[id].trimmed <= |log[id].items|
    && after[id].lastAccess == before[id].lastAccess
    && after[id].lines == TrimToBudget(before[id].lines, SatSub(maximum, Total(after - {id})))
    && EvictedLeastRecent(before, after, id, Distinct(before - {id}))
    && EvictedOnlyAsNeeded(before, after, id, before[id].chargedBytes, maximum)
    && OthersFirst(after, id, before[id].chargedBytes, maximum)
  }

  /** The whole effect of a push: the new entry, which lines of its server
      survive, and which other servers were evicted. */
  ghost predicate PushSpec(before: map<Id, History>, logged: map<Id, Log<Line>>,
                           after: map<Id, History>, log: map<Id, Log<Line>>,
                           id: Id, line: Line, entry: Entry, clock: nat, maximum: nat) {
    var kept := TrimToLimits(HistoryOf(before, id).lines + [entry]);
    && PushEffect(logged, log, id, line)
    && entry == Entry(Min(|log[id].items|, U64_MAX), line)
    && id in after && after[id].lastAccess == clock
    && Shrunk(before[id := after[id]], after, id)
    && after[id].lines == TrimToBudget(kept, SatSub(maximum, Total(after - {id})))
    && EvictedLeastRecent(before, after, id, Distinct(before))
    && EvictedOnlyAsNeeded(before, after, id, Charge(kept), maximum)
    && OthersFirst(after, id, Charge(kept), maximum)
  }

  /** What eviction did to the others does not depend on the pushed server's own record. */
  lemma TransferEviction(pushed: map<Id, History>, before: map<Id, History>, after: map<Id, History>,
                         id: Id, kept: nat, maximum: nat)
    requires id in pushed && pushed == before[id := pushed[id]] && id in after
    requires EvictedOnlyAsNeeded(pushed, after, id, kept, maximum)
    requires EvictedLeastRecent(pushed, after, id, Distinct(pushed - {id}))
    ensures EvictedOnlyAsNeeded(before, after, id, kept, maximum)
    ensures EvictedLeastRecent(before, after, id, Distinct(before))
  {
    hide Total;
    if victim :| victim in before && victim !in after {
      assert victim in pushed;
      var last :| LastVictim(pushed, after, last) &&
        Total(after - {id}) + pushed[last].chargedBytes + kept > maximum;
      assert LastVictim(before, after, last);
    }
    assert Distinct(before) ==> Distinct(pushed - {id});
    forall victim, survivor | victim in before && victim !in after && survivor in after && survivor in before && survivor != id
      ensures before[victim].lastAccess <= before[survivor].lastAccess
      ensures Distinct(before) ==> before[victim].lastAccess < before[survivor].lastAccess
    {
      assert victim in pushed && survivor in pushed;
    }
  }

  lemma PushThenEvict(before: map<Id, History>, logged: map<Id, Log<Line>>, history: History, items: Log<Line>,
                      after: map<Id, History>, log: map<Id, Log<Line>>,
                      id: Id, line: Line, entry: Entry, maximum: nat)
    requires items.items == LogOf(logged, id).items + [line] && LogOf(logged, id).trimmed <= items.trimmed
    requires entry == Entry(Min(|items.items|, U64_MAX), line)
    requires history.lines == TrimToLimits(HistoryOf(before, id).lines + [entry])
    requires history.chargedBytes == Charge(history.lines)
    requires EvictSpec(before[id := history], logged[id := items], after, log, id, maximum)
    ensures PushSpec(before, logged, after, log, id, line, entry, history.lastAccess, maximum)
  {
    hide Total, TrimToLimits, TrimToBudget, Charge, Distinct, EvictedLeastRecent, EvictedOnlyAsNeeded, OthersFirst;
    TransferEviction(before[id := history], before, after, id, history.chargedBytes, maximum);
    assert before[id := history][id := after[id]] == before[id := after[id]];
    assert logged[id := items][id := log[id]] == logged[id := log[id]];
  }

  lemma EvictThenTrim(start: map<Id, History>, started: map<Id, Log<Line>>,
                      kept: map<Id, History>, keptLog: map<Id, Log<Line>>,
                      history: History, items: Log<Line>, id: Id, maximum: nat)
    requires Shrunk(start, kept, id) && Shrunk(started, keptLog, id)
    requires EvictedLeastRecent(start, kept, id, Distinct(start - {id}))
    requires EvictedOnlyAsNeeded(start, kept, id, start[id].chargedBytes, maximum)
    requires items.items == keptLog[id].items && keptLog[id].trimmed <= items.trimmed <= |items.items|
    requires history.lastAccess == kept[id].lastAccess
    requires history.lines == TrimToBudget(kept[id].lines, SatSub(maximum, Total(kept - {id})))
    requires OthersFirst(kept, id, start[id].chargedBytes, maximum)
    ensures EvictSpec(start, started, kept[id := history], keptLog[id := items], id, maximum)
  {
    hide Total, TrimToBudget, Distinct;
    var after := kept[id := history];
    assert after - {id} == kept - {id};
    if victim :| victim in start && victim !in after {
      var last :| LastVictim(start, kept, last) &&
        Total(kept - {id}) + start[last].chargedBytes + start[id].chargedBytes > maximum;
      assert LastVictim(start, after, last);
    }
  }

  lemma LoneServer(entries: map<Id, History>, id: Id)
    requires id in entries && |entries| <= 1
    ensures entries.Keys == {id} && Total(entries - {id}) == 0
  {
    assert |entries.Keys - {id}| == 0;
    assert entries - {id} == map[];
  }

  lemma NothingEvicted(entries: map<Id, History>, id: Id, strictly: bool, kept: nat, maximum: nat)
    ensures EvictedLeastRecent(entries, entries, id, strictly)
    ensures EvictedOnlyAsNeeded(entries, entries, id, kept, maximum)
  {}

  /** Appends a line to one server's record and trims that record. */
  method AppendLine(stored: History, ghost logged: Log<Line>, total: nat, clock: nat, line: Line)
    returns (history: History, ghost items: Log<Line>, charged: nat, entry: Entry)
    requires HistoryOk(stored, logged) && WithinLimits(stored.lines)
    requires stored.chargedBytes <= total <= MAX_TOTAL_BYTES
    ensures HistoryOk(history, items) && WithinLimits(history.lines) && history.lastAccess == clock
    ensures items.items == logged.items + [line] && logged.trimmed <= items.trimmed
    ensures entry == Entry(Min(|items.items|, U64_MAX), line)
    ensures history.lines == TrimToLimits(stored.lines + [entry])
    ensures charged == total - stored.chargedBytes + history.chargedBytes
  {
    history := stored.(lastAccess := clock, nextSequence := SatAdd(stored.nextSequence, 1));
    entry := Entry(history.nextSequence, line);
    ContentAppend(stored.lines, entry);
    history := history.(
      contentBytes := SatAdd(stored.contentBytes, |line|),
      chargedBytes := SatAdd(stored.chargedBytes, EntryCharge(entry)),
      lines := stored.lines + [entry]);
    charged := SatAdd(total, EntryCharge(entry));
    items := Log(logged.items + [line], logged.trimmed);
    history, items, charged := PopToLimits(history, items, charged);
    TrimToLimitsIsLongestSuffix(stored.lines + [entry]);
  }

  function LineTexts(lines: seq<Entry>): (texts: seq<Line>)
    ensures |texts| == |lines| && forall i :: 0 <= i < |lines| ==> texts[i] == lines[i].line
  {
    seq(|lines|, i requires 0 <= i < |lines| => lines[i].line)
  }

  lemma TextsAreLogged(history: History, items: Log<Line>)
    requires HistoryOk(history, items)
    ensures LineTexts(history.lines) == items.items[items.trimmed..]
    ensures history.lines != [] ==> history.lines[|history.lines| - 1].sequence == Min(|items.items|, U64_MAX)
  {}

  /** The victim `min_by_key` may return; ties are broken by the hash map's order. */
  method LeastRecent(entries: map<Id, History>, id: Id) returns (oldest: Id)
    requires id in entries && |entries| > 1
    ensures Oldest(entries, id, oldest)
  {
    OldestExists(entries, id);
    oldest :| oldest in entries && oldest != id &&
      forall other :: other in entries && other != id ==> entries[oldest].lastAccess <= entries[other].lastAccess;
  }

  lemma RecordOk(entries: map<Id, History>, log: map<Id, Log<Line>>, clock: nat, id: Id)
    requires Stored(entries, log, clock)
    ensures HistoryOk(HistoryOf(entries, id), LogOf(log, id)) && WithinLimits(HistoryOf(entries, id).lines)
    ensures LogOf(log, id).trimmed <= |LogOf(log, id).items|
    ensures HistoryOf(entries, id).chargedBytes == Charge(HistoryOf(entries, id).lines)
    ensures HistoryOf(entries, id).lastAccess <= clock
    ensures entries.Keys == log.Keys
  {}

  lemma TouchedRecordOk(history: History, items: Log<Line>, clock: nat)
    requires HistoryOk(history, items)
    ensures HistoryOk(history.(lastAccess := clock), items)
  {}

  class HistoryCache {
    var entries: map<Id, History>
    var charged: nat
    const maximum: nat
    var clock: nat
    ghost var log: map<Id, Log<Line>>

    /** Everything but the budget, which a push exceeds until it has evicted. */
    ghost predicate Consistent()
      reads this
    {
      1 <= maximum <= MAX_TOTAL_BYTES && Stored(entries, log, clock) && charged == Total(entries)
    }

    ghost predicate Valid()
      reads this
    {
      Consistent() && charged <= maximum
    }

    constructor (configured: Option<nat>)
      ensures Valid() && entries == map[] && log == map[]
      ensures configured.None? || configured.value == 0 ==> maximum == 67108864
      ensures configured.Some? && 0 < configured.value < 65536 ==> maximum == 65536
      ensures configured.Some? && 65536 <= configured.value <= 1073741824 ==> maximum == configured.value
      ensures configured.Some? && configured.value > 1073741824 ==> maximum == 1073741824
    {
      var wanted := if configured.Some? && configured.value > 0 then configured.value else DEFAULT_TOTAL_BYTES;
      entries, charged, clock, log := map[], 0, 0, map[];
      maximum := if wanted < HISTORY_BYTES then HISTORY_BYTES
                 else if wanted > MAX_TOTAL_BYTES then MAX_TOTAL_BYTES else wanted;
    }

    /** Appends a line, then trims its own server and evicts the least recently
        used other servers until the budget holds again. */
    method Push(id: Id, line: Line) returns (entry: Entry)
      requires Valid()
      modifies this
      ensures Valid() && clock == SatAdd(old(clock), 1)
      ensures PushSpec(old(entries), old(log), entries, log, id, line, entry, clock, maximum)
    {
      hide PushSpec, EvictSpec, Total, Content, Charge, TrimToLimits, HistoryOk, WithinLimits;
      clock := SatAdd(clock, 1);
      TotalSplit(entries, id);
      RecordOk(entries, log, old(clock), id);
      var history; ghost var items;
      history, items, charged, entry := AppendLine(HistoryOf(entries, id), LogOf(log, id), charged, clock, line);
      StoreRecord(entries, log, old(clock), clock, id, history, items);
      hide Stored;
      TotalUpdate(entries, id, history);
      entries, log := entries[id := history], log[id := items];
      RecordOk(entries, log, clock, id);
      EvictToBudget(id);
      PushThenEvict(old(entries), old(log), history, items, entries, log, id, line, entry, maximum);
    }

    method EvictToBudget(id: Id)
      requires Consistent() && id in entries && id in log
      modifies this
      ensures Valid() && clock == old(clock)
      ensures EvictSpec(old(entries), old(log), entries, log, id, maximum)
    {
      hide EvictSpec, Stored, Total, Content, Charge, TrimToBudget, HistoryOk, WithinLimits,
           EvictedLeastRecent, EvictedOnlyAsNeeded, OthersFirst, Distinct, Shrunk;
      EvictOthers(id);
      TotalSplit(entries, id);
      RecordOk(entries, log, clock, id);
      if |entries| <= 1 { LoneServer(entries, id); }
      var history; ghost var items;
      history, items, charged := PopToBudget(entries[id], log[id], charged, maximum);
      RestoreRecord(entries, log, clock, id, history, items);
      TotalUpdate(entries, id, history);
      EvictThenTrim(old(entries), old(log), entries, log, history, items, id, maximum);
      entries, log := entries[id := history], log[id := items];
    }

    method EvictOthers(id: Id)
      requires Consistent() && id in entries && id in log
      modifies this
      ensures Consistent() && clock == old(clock)
      ensures id in entries && id in log && (charged <= maximum || |entries| <= 1)
      ensures Shrunk(old(entries), entries, id) && Shrunk(old(log), log, id)
      ensures EvictedLeastRecent(old(entries), entries, id, Distinct(old(entries) - {id}))
      ensures EvictedOnlyAsNeeded(old(entries), entries, id, old(entries)[id].chargedBytes, maximum)
      ensures OthersFirst(entries, id, old(entries)[id].chargedBytes, maximum)
    {
      hide Stored, Total, Content, Charge, Distinct, EvictedOnlyAsNeeded, EvictedLeastRecent, Oldest, HistoryOk, WithinLimits;
      NothingEvicted(entries, id, Distinct(entries - {id}), entries[id].chargedBytes, maximum);
      while charged > maximum && |entries| > 1
        invariant Consistent() && clock == old(clock)
        invariant Shrunk(old(entries), entries, id) && Shrunk(old(log), log, id)
        invariant EvictedLeastRecent(old(entries), entries, id, Distinct(old(entries) - {id}))
        invariant EvictedOnlyAsNeeded(old(entries), entries, id, old(entries)[id].chargedBytes, maximum)
        decreases |entries|
      {
        var oldest := LeastRecent(entries, id);
        EvictOne(old(entries), entries, id, oldest, maximum);
        Remove(oldest);
      }
      TotalSplit(entries, id);
      if |entries| <= 1 { LoneServer(entries, id); }
    }

    /** Drops a server's history; its next line starts a new log at sequence 1. */
    method Remove(id: Id)
      requires Consistent()
      modifies this
      ensures Consistent() && clock == old(clock)
      ensures entries == old(entries) - {id} && log == old(log) - {id}
      ensures charged == old(charged) - HistoryOf(old(entries), id).chargedBytes
    {
      TotalSplit(entries, id);
      DropRecord(entries, log, clock, id);
      if id in entries {
        charged := SatSub(charged, entries[id].chargedBytes);
        entries := entries - {id};
        log := log - {id};
      } else {
        assert entries - {id} == entries && log - {id} == log;
      }
    }

    /** The replay a new viewer gets, and the sequence number it covers. */
    method Snapshot(id: Id) returns (lines: seq<Line>, through: nat)
      requires Valid()
      modifies this
      ensures Valid() && log == old(log) && charged == old(charged)
      ensures LogOf(log, id).trimmed <= |LogOf(log, id).items|
      ensures lines == LogOf(log, id).items[LogOf(log, id).trimmed..]
      ensures through == if lines == [] then 0 else Min(|LogOf(log, id).items|, U64_MAX)
      ensures entries == if id in old(entries)
        then old(entries)[id := old(entries)[id].(lastAccess := clock)] else old(entries)
      ensures clock == SatAdd(old(clock), 1)
    {
      hide Total, Content, Charge, WithinLimits, HistoryOk;
      clock := SatAdd(clock, 1);
      RecordOk(entries, log, old(clock), id);
      if id !in entries {
        return [], 0;
      }
      var history := entries[id].(lastAccess := clock);
      TotalSplit(entries, id);
      TotalUpdate(entries, id, history);
      TouchedRecordOk(entries[id], log[id], clock);
      StoreRecord(entries, log, old(clock), clock, id, history, log[id]);
      assert log[id := log[id]] == log;
      entries := entries[id := history];
      TextsAreLogged(history, log[id]);
      lines := LineTexts(history.lines);
      through := if history.lines == [] then 0 else history.lines[|history.lines| - 1].sequence;
    }
  }
}
