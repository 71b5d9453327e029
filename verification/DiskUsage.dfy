/** The single-flight disk usage cache and its scanner (src/runtime/docker/inspection/disk.rs).

    A `disk_cached` call either returns a fresh snapshot, waits for the
    calculation in flight, or becomes that calculation.  The token that says
    whose calculation the cache is waiting for is the call that created it.
    Calls may be cancelled, fail or outlive a waiter's patience at any await. */
module DiskUsage {
  import opened Machine
  import opened Wrappers

  type Id = string

  datatype Usage = Usage(bytes: int, limit: int)

  /** `source` records which calculation stored a snapshot; the original keeps only its instant. */
  datatype Entry = Ready(when: nat, usage: Usage, source: nat) | Calculating(token: nat)

  datatype Decision = Cached(usage: Usage) | Wait(token: nat) | Calculate

  // ---- the sections under the cache lock ------------------------------------------

  function Begin(cache: map<Id, Entry>, id: Id, force: bool, now: nat, maxAge: nat, token: nat): (map<Id, Entry>, Decision) {
    if id in cache && cache[id].Ready? && !force && now - cache[id].when <= maxAge then (cache, Cached(cache[id].usage))
    else if id in cache && cache[id].Calculating? then (cache, Wait(cache[id].token))
    else (cache[id := Calculating(token)], Calculate)
  }

  predicate Owns(cache: map<Id, Entry>, id: Id, token: nat) {
    id in cache && cache[id] == Calculating(token)
  }

  function Store(cache: map<Id, Entry>, id: Id, token: nat, now: nat, usage: Usage): map<Id, Entry> {
    if Owns(cache, id, token) then cache[id := Ready(now, usage, token)] else cache
  }

  /** The guard's clean-up after a cancelled calculation, and a waiter that gives up. */
  function Release(cache: map<Id, Entry>, id: Id, token: nat): map<Id, Entry> {
    if Owns(cache, id, token) then cache - {id} else cache
  }

  /** The map behind the lock, changed in place. */
  class Cache {
    var entries: map<Id, Entry>

    constructor ()
      ensures entries == map[]
    {
      entries := map[];
    }

    method BeginCalculation(id: Id, force: bool, now: nat, maxAge: nat, token: nat) returns (decision: Decision)
      modifies this
      ensures (entries, decision) == Begin(old(entries), id, force, now, maxAge, token)
    {
      if id in entries {
        match entries[id]
        case Ready(when, usage, _) =>
          if !force && now - when <= maxAge {
            return Cached(usage);
          }
        case Calculating(current) => return Wait(current);
      }
      entries := entries[id := Calculating(token)];
      return Calculate;
    }

    method StoreResult(id: Id, token: nat, now: nat, usage: Usage)
      modifies this
      ensures entries == Store(old(entries), id, token, now, usage)
    {
      if id in entries && entries[id] == Calculating(token) {
        entries := entries[id := Ready(now, usage, token)];
      }
    }

    method ReleaseToken(id: Id, token: nat)
      modifies this
      ensures entries == Release(old(entries), id, token)
    {
      if id in entries && entries[id] == Calculating(token) {
        entries := entries - {id};
      }
    }

    method Invalidate(id: Id)
      modifies this
      ensures entries == old(entries) - {id}
    {
      entries := entries - {id};
    }
  }

  // ---- all calls together --------------------------------------------------------------

  datatype Pc =
    | Entering
    | Waiting(token: nat)
    | Computing
    | Dropped              // the guard's clean-up has been spawned but has not run
    | Finished(result: Option<Usage>)

  datatype Call = Call(id: Id, force: bool, pc: Pc)

  datatype State = State(cache: map<Id, Entry>, calls: seq<Call>, now: nat, maxAge: nat)

  datatype Action =
    | Start(id: Id, force: bool)
    | Enter(call: nat)
    | Wake(call: nat)
    | GiveUpWaiting(call: nat)
    | Complete(call: nat, usage: Usage)
    | Cancel(call: nat)
    | CleanUp(call: nat)
    | InvalidateId(id: Id)
    | Tick(elapsed: nat)

  function Initial(maxAge: nat): State { State(map[], [], 0, maxAge) }

  predicate Enabled(s: State, a: Action) {
    match a
    case Start(_, _) => true
    case Enter(c) => c < |s.calls| && s.calls[c].pc == Entering
    case Wake(c) => c < |s.calls| && s.calls[c].pc.Waiting?
    case GiveUpWaiting(c) => c < |s.calls| && s.calls[c].pc.Waiting?
    case Complete(c, _) => c < |s.calls| && s.calls[c].pc == Computing
    case Cancel(c) => c < |s.calls| && (s.calls[c].pc == Entering || s.calls[c].pc.Waiting? || s.calls[c].pc == Computing)
    case CleanUp(c) => c < |s.calls| && s.calls[c].pc == Dropped
    case InvalidateId(_) => true
    case Tick(_) => true
  }

  function At(s: State, c: nat, pc: Pc): State
    requires c < |s.calls|
  {
    s.(calls := s.calls[c := s.calls[c].(pc := pc)])
  }

  function Entered(s: State, c: nat): State
    requires c < |s.calls|
  {
    var (cache, decision) := Begin(s.cache, s.calls[c].id, s.calls[c].force, s.now, s.maxAge, c);
    match decision
    case Cached(usage) => At(s, c, Finished(Some(usage)))
    case Wait(token) => At(s, c, Waiting(token))
    case Calculate => At(s, c, Computing).(cache := cache)
  }

  function Step(s: State, a: Action): State
    requires Enabled(s, a)
  {
    match a
    case Start(id, force) => s.(calls := s.calls + [Call(id, force, Entering)])
    case Enter(c) => Entered(s, c)
    case Wake(c) => At(s, c, Entering)
    case GiveUpWaiting(c) => At(s, c, Entering).(cache := Release(s.cache, s.calls[c].id, s.calls[c].pc.token))
    case Complete(c, usage) =>
      At(s, c, Finished(Some(usage))).(cache := Store(s.cache, s.calls[c].id, c, s.now, usage))
    case Cancel(c) => At(s, c, if s.calls[c].pc == Computing then Dropped else Finished(None))
    case CleanUp(c) => At(s, c, Finished(None)).(cache := Release(s.cache, s.calls[c].id, c))
    case InvalidateId(id) => s.(cache := s.cache - {id})
    case Tick(elapsed) => s.(now := s.now + elapsed)
  }

  // ---- invariant --------------------------------------------------------------------------

  ghost predicate EntryOk(s: State, id: Id)
    requires id in s.cache
  {
    match s.cache[id]
    case Calculating(token) =>
      // A live owner, or a clean-up that is still to come.
      token < |s.calls| && s.calls[token].id == id && (s.calls[token].pc == Computing || s.calls[token].pc == Dropped)
    case Ready(when, usage, source) =>
      when <= s.now && source < |s.calls| && s.calls[source].id == id && s.calls[source].pc == Finished(Some(usage))
  }

  ghost predicate Inv(s: State) {
    && (forall id :: id in s.cache ==> EntryOk(s, id))
    // A call waits for a calculation of its own id.
    && (forall c :: 0 <= c < |s.calls| && s.calls[c].pc.Waiting? ==>
      s.calls[c].pc.token < |s.calls| && s.calls[s.calls[c].pc.token].id == s.calls[c].id)
    // A call that has not begun calculating holds no token.
    && (forall c, id :: 0 <= c < |s.calls| && (s.calls[c].pc == Entering || s.calls[c].pc.Waiting?) && id in s.cache ==>
      s.cache[id] != Calculating(c) && (s.cache[id].Ready? ==> s.cache[id].source != c))
  }

  lemma StepKeepsInv(s: State, a: Action)
    requires Inv(s) && Enabled(s, a)
    ensures Inv(Step(s, a))
  {
    if a.Enter? {
      EnterKeepsInv(s, a.call);
    } else if a.Start? || a.InvalidateId? || a.Tick? || a.Wake? || a.Cancel? {
      UnlockedStepKeepsInv(s, a);
    } else {
      OwnerStepKeepsInv(s, a);
    }
  }

  lemma EnterKeepsInv(s: State, c: nat)
    requires Inv(s) && Enabled(s, Enter(c))
    ensures Inv(Entered(s, c))
  {
    var t := Entered(s, c);
    forall id | id in t.cache ensures EntryOk(t, id) { if id in s.cache { assert EntryOk(s, id); } }
  }

  lemma UnlockedStepKeepsInv(s: State, a: Action)
    requires Inv(s) && Enabled(s, a) && (a.Start? || a.InvalidateId? || a.Tick? || a.Wake? || a.Cancel?)
    ensures Inv(Step(s, a))
  {
    var t := Step(s, a);
    forall id | id in t.cache ensures EntryOk(t, id) { assert EntryOk(s, id); }
  }

  lemma OwnerStepKeepsInv(s: State, a: Action)
    requires Inv(s) && Enabled(s, a) && (a.GiveUpWaiting? || a.Complete? || a.CleanUp?)
    ensures Inv(Step(s, a))
  {
    hide Inv;
    match a
    case GiveUpWaiting(c) => GivingUpKeepsInv(s, c);
    case Complete(c, usage) => CompletingKeepsInv(s, c, usage);
    case CleanUp(c) => CleaningUpKeepsInv(s, c);
  }

  lemma GivingUpKeepsInv(s: State, c: nat)
    requires Inv(s) && Enabled(s, GiveUpWaiting(c))
    ensures Inv(Step(s, GiveUpWaiting(c)))
  {
    var t := Step(s, GiveUpWaiting(c));
    forall id | id in t.cache ensures EntryOk(t, id) { assert EntryOk(s, id); }
  }

  lemma CompletingKeepsInv(s: State, c: nat, usage: Usage)
    requires Inv(s) && Enabled(s, Complete(c, usage))
    ensures Inv(Step(s, Complete(c, usage)))
  {
    var t := Step(s, Complete(c, usage));
    forall id | id in t.cache ensures EntryOk(t, id) { assert EntryOk(s, id); }
  }

  lemma CleaningUpKeepsInv(s: State, c: nat)
    requires Inv(s) && Enabled(s, CleanUp(c))
    ensures Inv(Step(s, CleanUp(c)))
  {
    var t := Step(s, CleanUp(c));
    forall id | id in t.cache ensures EntryOk(t, id) { assert EntryOk(s, id); }
  }

  ghost predicate IsRun(states: seq<State>, actions: seq<Action>) {
    && |states| == |actions| + 1
    && (exists maxAge :: states[0] == Initial(maxAge))
    && forall i :: 0 <= i < |actions| ==> Enabled(states[i], actions[i]) && states[i + 1] == Step(states[i], actions[i])
  }

  lemma {:induction false} RunKeepsInv(states: seq<State>, actions: seq<Action>, i: nat)
    requires IsRun(states, actions) && i < |states|
    ensures Inv(states[i])
  {
    if i > 0 {
      hide Inv, Enabled, Step;
      RunKeepsInv(states, actions, i - 1);
      StepKeepsInv(states[i - 1], actions[i - 1]);
    }
  }

  // ---- what entering comes to -------------------------------------------------------------------

  /** A snapshot that an unforced call may be answered with. */
  predicate Fresh(s: State, id: Id) {
    id in s.cache && s.cache[id].Ready? && s.now - s.cache[id].when <= s.maxAge
  }

  /** Exactly what becomes of a call: only an unforced one is answered from the
      cache, a call waits exactly for the calculation in flight, and otherwise
      it becomes that calculation. */
  lemma EnteringIff(s: State, c: nat)
    requires Enabled(s, Enter(c))
    ensures var id, t := s.calls[c].id, Step(s, Enter(c)); var pc := t.calls[c].pc;
      && t == s.(cache := t.cache, calls := s.calls[c := s.calls[c].(pc := pc)])
      && (pc.Finished? <==> !s.calls[c].force && Fresh(s, id))
      && (pc.Finished? ==> pc.result == Some(s.cache[id].usage))
      && (pc.Waiting? <==> id in s.cache && s.cache[id].Calculating?)
      && (pc.Waiting? ==> s.cache[id] == Calculating(pc.token))
      && (pc == Computing || pc.Waiting? || pc.Finished?)
      && t.cache == if pc == Computing then s.cache[id := Calculating(c)] else s.cache
  {}

  /** The stretch `i..k` of a run in which call `c` measures: it begins with its
      `Enter` and ends with its completion. */
  ghost predicate Measures(states: seq<State>, actions: seq<Action>, i: nat, k: nat, c: nat, usage: Usage)
    requires |states| == |actions| + 1
  {
    && i < k < |actions| && actions[i] == Enter(c) && actions[k] == Complete(c, usage)
    && forall m :: i < m <= k ==> c < |states[m].calls| && states[m].calls[c].pc == Computing
  }

  lemma {:induction false} ComputingSince(states: seq<State>, actions: seq<Action>, j: nat, c: nat) returns (i: nat)
    requires IsRun(states, actions) && j < |states| && c < |states[j].calls| && states[j].calls[c].pc == Computing
    ensures i < j && actions[i] == Enter(c)
    ensures forall m :: i < m <= j ==> c < |states[m].calls| && states[m].calls[c].pc == Computing
  {
    if c < |states[j - 1].calls| && states[j - 1].calls[c].pc == Computing {
      i := ComputingSince(states, actions, j - 1, c);
    } else {
      i := j - 1;
    }
  }

  /** A forced call is never answered with what another call measured, or with
      what was measured before it began: it measures itself. */
  lemma {:induction false} ForcedMeasuresItself(states: seq<State>, actions: seq<Action>, j: nat, c: nat) returns (i: nat, k: nat)
    requires IsRun(states, actions) && j < |states| && c < |states[j].calls|
    requires states[j].calls[c].force && states[j].calls[c].pc.Finished? && states[j].calls[c].pc.result.Some?
    ensures i < k < j && Measures(states, actions, i, k, c, states[j].calls[c].pc.result.value)
  {
    var s, a := states[j - 1], actions[j - 1];
    if c < |s.calls| && s.calls[c].pc == states[j].calls[c].pc {
      i, k := ForcedMeasuresItself(states, actions, j - 1, c);
    } else {
      assert a == Complete(c, states[j].calls[c].pc.result.value);
      i := ComputingSince(states, actions, j - 1, c);
      k := j - 1;
    }
  }

  // ---- freshness ------------------------------------------------------------------------------

  function TokenOf(entry: Entry): nat {
    match entry case Calculating(token) => token case Ready(_, _, source) => source
  }

  /** The section in which call `c` becomes the calculation for its id. */
  predicate Begins(s: State, a: Action, c: nat) {
    a == Enter(c) && Enabled(s, a) && Step(s, a).calls[c].pc == Computing
  }

  predicate BegunSince(states: seq<State>, actions: seq<Action>, j: nat, id: Id, c: nat, i: nat)
    requires |states| == |actions| + 1 && j < |states|
  {
    i < j && Begins(states[i], actions[i], c) && states[i].calls[c].id == id
    && forall k :: i <= k < j ==> actions[k] != InvalidateId(id)
  }

  /** Whatever is interleaved, the cached value of an id, or the calculation the
      cache waits for, was begun after the id was last invalidated. */
  lemma {:induction false} SingleFlightFreshness(states: seq<State>, actions: seq<Action>, j: nat, id: Id)
    returns (i: nat)
    requires IsRun(states, actions) && j < |states| && id in states[j].cache
    ensures BegunSince(states, actions, j, id, TokenOf(states[j].cache[id]), i)
  {
    if j == 0 {
      assert false;
    }
    var s, a, entry := states[j - 1], actions[j - 1], states[j].cache[id];
    EntryComesFrom(s, a, id);
    if id in s.cache && TokenOf(s.cache[id]) == TokenOf(entry) && a != InvalidateId(id) {
      i := SingleFlightFreshness(states, actions, j - 1, id);
    } else {
      i := j - 1;
    }
  }

  /** One step either leaves an entry with its token, or begins a calculation for it. */
  lemma EntryComesFrom(s: State, a: Action, id: Id)
    requires Enabled(s, a) && id in Step(s, a).cache
    ensures a != InvalidateId(id)
    ensures var token := TokenOf(Step(s, a).cache[id]);
      || (id in s.cache && TokenOf(s.cache[id]) == token)
      || (Begins(s, a, token) && s.calls[token].id == id)
    ensures Step(s, a).cache[id].Ready? && !(id in s.cache && s.cache[id] == Step(s, a).cache[id]) ==>
      var source := Step(s, a).cache[id].source;
      a.Complete? && a.call == source && Owns(s.cache, id, source) && Step(s, a).cache[id] == Ready(s.now, a.usage, source)
  {}

  /** The only ways in which a calculation in the cache can end: its owner
      completes or cleans up, one of its own waiters gives up, or the id is invalidated. */
  predicate EndsCalculation(s: State, a: Action, id: Id, token: nat) {
    match a
    case Complete(c, _) => c == token
    case CleanUp(c) => c == token
    case GiveUpWaiting(c) => c < |s.calls| && s.calls[c].pc == Waiting(token)
    case InvalidateId(other) => other == id
    case _ => false
  }

  /** Through any run without one of these a calculation keeps its place: no
      other call, forced or late, removes or replaces its token. */
  lemma {:induction false} CalculationKeepsItsPlace(states: seq<State>, actions: seq<Action>, i: nat, j: nat, id: Id, token: nat)
    requires IsRun(states, actions) && i <= j < |states|
    requires Owns(states[i].cache, id, token)
    requires forall k :: i <= k < j ==> !EndsCalculation(states[k], actions[k], id, token)
    ensures Owns(states[j].cache, id, token)
    decreases j
  {
    if i < j {
      RunKeepsInv(states, actions, j - 1);
      CalculationKeepsItsPlace(states, actions, i, j - 1, id, token);
      CalculationEndsOnlyBy(states[j - 1], actions[j - 1], id, token);
    }
  }

  /** One step ends a calculation exactly if it is one of these. */
  lemma CalculationEndsOnlyBy(s: State, a: Action, id: Id, token: nat)
    requires Inv(s) && Enabled(s, a) && Owns(s.cache, id, token)
    ensures Owns(Step(s, a).cache, id, token) <==> !EndsCalculation(s, a, id, token)
  {
    assert EntryOk(s, id);
  }

  /** A snapshot handed out is the one its calculation measured, is no older than
      the configured age, and was begun after the last invalidation. */
  lemma CachedAnswersAreFresh(states: seq<State>, actions: seq<Action>, j: nat, c: nat) returns (i: nat)
    requires IsRun(states, actions) && j < |actions| && actions[j] == Enter(c)
    requires c < |states[j + 1].calls| && states[j + 1].calls[c].pc.Finished?
    ensures var id := states[j].calls[c].id;
      && id in states[j].cache && states[j].cache[id].Ready?
      && var entry := states[j].cache[id];
      && BegunSince(states, actions, j, id, entry.source, i)
      && entry.source < |states[j].calls| && states[j].calls[entry.source].pc == Finished(Some(entry.usage))
      && states[j].now - states[j].maxAge <= entry.when <= states[j].now
      && states[j + 1].calls[c].pc == Finished(Some(entry.usage))
  {
    RunKeepsInv(states, actions, j);
    assert EntryOk(states[j], states[j].calls[c].id);
    i := SingleFlightFreshness(states, actions, j, states[j].calls[c].id);
  }

  /** A calculation in the cache can always end: its owner may complete, or its
      pending clean-up run, and either frees every waiter's id. */
  lemma CalculationCanEnd(states: seq<State>, actions: seq<Action>, i: nat, id: Id)
    requires IsRun(states, actions) && i < |states|
    requires id in states[i].cache && states[i].cache[id].Calculating?
    ensures var token := states[i].cache[id].token;
      || (Enabled(states[i], CleanUp(token)) && id !in Step(states[i], CleanUp(token)).cache)
      || forall usage :: Enabled(states[i], Complete(token, usage))
           && id in Step(states[i], Complete(token, usage)).cache
           && Step(states[i], Complete(token, usage)).cache[id] == Ready(states[i].now, usage, token)
  {
    RunKeepsInv(states, actions, i);
    assert EntryOk(states[i], id);
  }

  /** A calculation that finishes late, or whose clean-up runs late, leaves a newer one alone. */
  lemma LateCallsAreHarmless(s: State, a: Action, id: Id, c: nat)
    requires Enabled(s, a) && id in s.cache && TokenOf(s.cache[id]) != c
    requires a == CleanUp(c) || (a.Complete? && a.call == c)
    ensures id in Step(s, a).cache && Step(s, a).cache[id] == s.cache[id]
  {}

  // ---- the scanner --------------------------------------------------------------------------------

  /** What `read_dir` and `file_type` report; unreadable directories count nothing. */
  datatype Node = File(length: nat) | Directory(children: seq<Node>) | Unreadable | Symlink | Special

  function Size(node: Node): nat {
    match node
    case File(length) => if length > I64_MAX then I64_MAX else length
    case Directory(children) => Sizes(children)
    case _ => 0
  }

  function Sizes(nodes: seq<Node>): nat {
    if nodes == [] then 0 else Size(nodes[0]) + Sizes(nodes[1..])
  }

  function Count(node: Node): nat {
    match node case Directory(children) => 1 + Counts(children) case _ => 1
  }

  function Counts(nodes: seq<Node>): nat {
    if nodes == [] then 0 else Count(nodes[0]) + Counts(nodes[1..])
  }

  lemma {:induction false} SizesAppend(a: seq<Node>, b: seq<Node>)
    ensures Sizes(a + b) == Sizes(a) + Sizes(b) && Counts(a + b) == Counts(a) + Counts(b)
  {
    if a == [] {
      assert a + b == b;
    } else {
      assert (a + b)[1..] == a[1..] + b;
      SizesAppend(a[1..], b);
    }
  }

  /** `dir_size`: an explicit work list instead of recursion, and a saturating
      total, give the sum of all regular files below the root. */
  method DirSize(root: Node) returns (total: int)
    requires root.Directory? || root.Unreadable?
    ensures total == Min(Size(root), I64_MAX)
  {
    total := 0;
    var pending := [root];
    ghost var counted := 0;
    while pending != []
      invariant forall node :: node in pending ==> node.Directory? || node.Unreadable?
      invariant counted + Sizes(pending) == Size(root)
      invariant total == Min(counted, I64_MAX)
      decreases Counts(pending)
    {
      var directory := pending[|pending| - 1];
      ghost var was := pending;
      pending := pending[..|pending| - 1];
      assert was == pending + [directory];
      SizesAppend(pending, [directory]);
      if directory.Unreadable? {
        continue;
      }
      ghost var rest := pending;
      for i := 0 to |directory.children|
        invariant forall node :: node in pending ==> node.Directory? || node.Unreadable?
        invariant counted + Sizes(pending) + Sizes(directory.children[i..]) == Size(root)
        invariant total == Min(counted, I64_MAX)
        invariant Counts(pending) + Counts(directory.children[i..]) <= Counts(rest) + Counts(directory.children)
      {
        var entry := directory.children[i];
        assert directory.children[i..][1..] == directory.children[i + 1..];
        if entry.Directory? || entry.Unreadable? {
          SizesAppend(pending, [entry]);
          pending := pending + [entry];
        } else if entry.File? {
          var length := Min(entry.length, I64_MAX);
          total := if total + length > I64_MAX then I64_MAX else total + length;
          counted := counted + length;
        }
      }
    }
  }
}
