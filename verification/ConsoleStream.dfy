/** Replay followed by live entries, as a viewer sees them
    (src/grpc/services/server.rs, `stream_console`).

    A line is pushed to the history under one lock and sent to the viewers under
    another; in between it is "in flight".  A viewer installs its receiver first
    and takes its history snapshot later.  The operations below are those single
    lock sections; nothing is said about the order in which they happen. */
module ConsoleStream {
  import opened ConsoleHistory

  /** A logged line: who produced it, and in which generation of its server. */
  datatype Record = Record(line: Line, author: int, epoch: nat)

  /** An entry of one incarnation of a server's history; dropping a history starts the next one. */
  datatype Item = Item(id: Id, incarnation: nat, sequence: nat, record: Record)

  datatype Phase =
    | Attaching
    | Streaming(incarnation: nat, from: nat, through: nat, replayed: seq<Record>)

  datatype Viewer = Viewer(
    id: Id, channel: nat, incarnation: nat, installed: nat, queue: seq<Item>, phase: Phase, open: bool)

  /** `flights` maps each producer to the entry it has pushed and not yet sent. */
  datatype Stream = Stream(
    logs: map<Id, Log<Record>>, drops: map<Id, nat>, flights: map<int, Item>, viewers: seq<Viewer>)

  function Drops(s: Stream, id: Id): nat { if id in s.drops then s.drops[id] else 0 }

  function Pushed(s: Stream, id: Id): nat { |LogOf(s.logs, id).items| }

  function Bump(counts: map<Id, nat>, ids: set<Id>): (bumped: map<Id, nat>)
    ensures forall id :: id in bumped <==> id in counts || id in ids
    ensures forall id :: id in bumped ==>
      bumped[id] == (if id in counts then counts[id] else 0) + if id in ids then 1 else 0
  {
    map id | id in counts.Keys + ids :: (if id in counts then counts[id] else 0) + if id in ids then 1 else 0
  }

  // ---- the lock sections -------------------------------------------------------

  /** The history section of a publish; `after` is what the bounded cache keeps. */
  function Push(s: Stream, slot: int, id: Id, record: Record, after: map<Id, Log<Record>>): Stream
    requires PushEffect(s.logs, after, id, record)
  {
    s.(logs := after,
       drops := Bump(s.drops, s.logs.Keys - after.Keys),
       flights := s.flights[slot := Item(id, Drops(s, id), |after[id].items|, record)])
  }

  function Receive(viewer: Viewer, channel: nat, item: Item): Viewer {
    if viewer.open && viewer.channel == channel then viewer.(queue := viewer.queue + [item]) else viewer
  }

  /** The senders section of a publish. */
  function Send(s: Stream, slot: int, channel: nat): Stream
    requires slot in s.flights
  {
    s.(flights := s.flights - {slot},
       viewers := seq(|s.viewers|, v requires 0 <= v < |s.viewers| => Receive(s.viewers[v], channel, s.flights[slot])))
  }

  /** A producer that finds itself stopped, or its server without a channel, gives up its entry. */
  function Abandon(s: Stream, slot: int): Stream {
    s.(flights := s.flights - {slot})
  }

  function Install(s: Stream, id: Id, channel: nat): Stream {
    s.(viewers := s.viewers + [Viewer(id, channel, Drops(s, id), Pushed(s, id), [], Attaching, true)])
  }

  function Snapshot(s: Stream, v: nat): Stream
    requires v < |s.viewers|
    requires LogOk(s, s.viewers[v].id)
  {
    var viewer := s.viewers[v];
    var log := LogOf(s.logs, viewer.id);
    var replayed := log.items[log.trimmed..];
    var phase := if replayed == [] then Streaming(Drops(s, viewer.id), 0, 0, [])
                 else Streaming(Drops(s, viewer.id), log.trimmed, |log.items|, replayed);
    s.(viewers := s.viewers[v := viewer.(phase := phase)])
  }

  function Leave(s: Stream, v: nat): Stream
    requires v < |s.viewers|
  {
    s.(viewers := s.viewers[v := s.viewers[v].(open := false)])
  }

  function DropHistories(s: Stream, ids: set<Id>): Stream {
    s.(logs := s.logs - ids, drops := Bump(s.drops, ids))
  }

  // ---- invariant ----------------------------------------------------------------

  predicate Same(a: Item, b: Item) {
    a.id == b.id && a.incarnation == b.incarnation && a.sequence == b.sequence
  }

  ghost predicate LogOk(s: Stream, id: Id) {
    LogOf(s.logs, id).trimmed <= |LogOf(s.logs, id).items|
  }

  /** The sequence number has been given out in that incarnation. */
  predicate Taken(s: Stream, item: Item) {
    && 1 <= item.sequence
    && (item.incarnation < Drops(s, item.id)
        || (item.incarnation == Drops(s, item.id) && item.sequence <= Pushed(s, item.id)))
  }

  /** Taken, and while its incarnation lasts the log still holds what the item carries. */
  ghost predicate Issued(s: Stream, item: Item) {
    && Taken(s, item)
    && (item.incarnation == Drops(s, item.id) ==> LogOf(s.logs, item.id).items[item.sequence - 1] == item.record)
  }

  ghost predicate QueueOk(s: Stream, viewer: Viewer) {
    && (forall i :: 0 <= i < |viewer.queue| ==> viewer.queue[i].id == viewer.id && Issued(s, viewer.queue[i]))
    && (forall i, j :: 0 <= i < j < |viewer.queue| ==> !Same(viewer.queue[i], viewer.queue[j]))
  }

  ghost predicate PhaseOk(s: Stream, viewer: Viewer) {
    viewer.phase.Streaming? ==>
      var phase := viewer.phase;
      && viewer.incarnation <= phase.incarnation <= Drops(s, viewer.id)
      && phase.from <= phase.through && |phase.replayed| == phase.through - phase.from
      && (phase.incarnation == Drops(s, viewer.id) ==>
        && phase.through <= Pushed(s, viewer.id)
        // What the replay leaves out had left the bounded history by then.
        && phase.from <= LogOf(s.logs, viewer.id).trimmed
        && (viewer.incarnation == phase.incarnation ==>
              viewer.installed <= phase.through || viewer.installed <= LogOf(s.logs, viewer.id).trimmed)
        && forall i :: 0 <= i < |phase.replayed| ==>
          LogOf(s.logs, viewer.id).items[phase.from + i] == phase.replayed[i])
  }

  ghost predicate ViewerOk(s: Stream, viewer: Viewer) {
    && viewer.incarnation <= Drops(s, viewer.id)
    && (viewer.incarnation == Drops(s, viewer.id) ==> viewer.installed <= Pushed(s, viewer.id))
    && QueueOk(s, viewer)
    && PhaseOk(s, viewer)
    && forall slot, i :: slot in s.flights && 0 <= i < |viewer.queue| ==> !Same(s.flights[slot], viewer.queue[i])
  }

  ghost predicate FlightsOk(s: Stream) {
    && (forall slot :: slot in s.flights ==> Issued(s, s.flights[slot]))
    && (forall a, b :: a in s.flights && b in s.flights && a != b ==> !Same(s.flights[a], s.flights[b]))
  }

  ghost predicate StreamOk(s: Stream) {
    && (forall id :: id in s.logs ==> LogOk(s, id))
    && FlightsOk(s)
    && forall v :: 0 <= v < |s.viewers| ==> ViewerOk(s, s.viewers[v])
  }

  /** `t` only issued more than `s`: no log shrank without its incarnation ending. */
  ghost predicate Later(s: Stream, t: Stream) {
    forall id :: Drops(s, id) <= Drops(t, id) &&
      (Drops(s, id) == Drops(t, id) ==>
        LogOf(s.logs, id).items <= LogOf(t.logs, id).items && LogOf(s.logs, id).trimmed <= LogOf(t.logs, id).trimmed)
  }

  lemma IssuedStays(s: Stream, t: Stream, item: Item)
    requires Later(s, t) && Issued(s, item)
    ensures Issued(t, item)
  {}

  lemma ViewerStays(s: Stream, t: Stream, viewer: Viewer)
    requires Later(s, t) && ViewerOk(s, viewer)
    requires forall slot :: slot in t.flights ==>
      (slot in s.flights && t.flights[slot] == s.flights[slot]) || !Taken(s, t.flights[slot])
    ensures ViewerOk(t, viewer)
  {
    assert Drops(s, viewer.id) <= Drops(t, viewer.id);
    forall i | 0 <= i < |viewer.queue| ensures Issued(t, viewer.queue[i]) {
      IssuedStays(s, t, viewer.queue[i]);
    }
    forall slot, i | slot in t.flights && 0 <= i < |viewer.queue| ensures !Same(t.flights[slot], viewer.queue[i]) {
      assert Issued(s, viewer.queue[i]);
    }
  }

  // ---- every lock section keeps the invariant -------------------------------------

  lemma PushIsLater(s: Stream, slot: int, id: Id, record: Record, after: map<Id, Log<Record>>)
    requires PushEffect(s.logs, after, id, record)
    ensures Later(s, Push(s, slot, id, record, after))
    ensures !Taken(s, Push(s, slot, id, record, after).flights[slot])
    ensures Issued(Push(s, slot, id, record, after), Push(s, slot, id, record, after).flights[slot])
  {
    var t := Push(s, slot, id, record, after);
    forall other ensures Drops(s, other) <= Drops(t, other)
      ensures Drops(s, other) == Drops(t, other) ==>
        LogOf(s.logs, other).items <= LogOf(t.logs, other).items && LogOf(s.logs, other).trimmed <= LogOf(t.logs, other).trimmed
    {
      if other != id && other !in after {
        assert other in s.logs ==> other in s.logs.Keys - after.Keys;
      }
    }
  }

  lemma PushKeeps(s: Stream, slot: int, id: Id, record: Record, after: map<Id, Log<Record>>)
    requires StreamOk(s) && PushEffect(s.logs, after, id, record) && slot !in s.flights
    ensures StreamOk(Push(s, slot, id, record, after))
  {
    var t := Push(s, slot, id, record, after);
    PushIsLater(s, slot, id, record, after);
    assert FlightsOk(t) by {
      forall k | k in t.flights ensures Issued(t, t.flights[k]) {
        if k != slot { IssuedStays(s, t, s.flights[k]); }
      }
      forall a, b | a in t.flights && b in t.flights && a != b ensures !Same(t.flights[a], t.flights[b]) {
        assert a != slot ==> Taken(s, t.flights[a]);
        assert b != slot ==> Taken(s, t.flights[b]);
      }
    }
    forall v | 0 <= v < |t.viewers| ensures ViewerOk(t, t.viewers[v]) {
      ViewerStays(s, t, s.viewers[v]);
    }
  }

  lemma ReceiveKeeps(s: Stream, t: Stream, slot: int, channel: nat, viewer: Viewer)
    requires StreamOk(s) && slot in s.flights && ViewerOk(s, viewer)
    requires t.logs == s.logs && t.drops == s.drops && t.flights == s.flights - {slot}
    requires viewer.open && viewer.channel == channel ==> viewer.id == s.flights[slot].id
    ensures ViewerOk(t, Receive(viewer, channel, s.flights[slot]))
  {
    var item, after := s.flights[slot], Receive(viewer, channel, s.flights[slot]);
    assert Issued(s, item) && Issued(t, item);
    assert forall i :: 0 <= i < |viewer.queue| ==> Issued(t, viewer.queue[i]);
    forall other, i | other in t.flights && 0 <= i < |after.queue| ensures !Same(t.flights[other], after.queue[i]) {
      assert other in s.flights && other != slot;
      assert !Same(s.flights[other], item);
      if i < |viewer.queue| { assert !Same(s.flights[other], viewer.queue[i]); }
    }
    forall i, j | 0 <= i < j < |after.queue| ensures !Same(after.queue[i], after.queue[j]) {
      assert !Same(item, viewer.queue[i]);
    }
  }

  lemma SendKeeps(s: Stream, slot: int, channel: nat)
    requires StreamOk(s) && slot in s.flights
    requires forall v :: 0 <= v < |s.viewers| && s.viewers[v].channel == channel ==> s.viewers[v].id == s.flights[slot].id
    ensures StreamOk(Send(s, slot, channel))
  {
    var t := Send(s, slot, channel);
    assert forall id :: id in t.logs ==> LogOk(s, id) && LogOk(t, id);
    assert forall k :: k in t.flights ==> Issued(s, t.flights[k]) && Issued(t, t.flights[k]);
    forall v | 0 <= v < |t.viewers| ensures ViewerOk(t, t.viewers[v]) {
      ReceiveKeeps(s, t, slot, channel, s.viewers[v]);
    }
  }

  lemma AbandonKeeps(s: Stream, slot: int)
    requires StreamOk(s)
    ensures StreamOk(Abandon(s, slot))
  {
    var t := Abandon(s, slot);
    assert forall id :: id in t.logs ==> LogOk(s, id) && LogOk(t, id);
    assert forall k :: k in t.flights ==> Issued(s, t.flights[k]) && Issued(t, t.flights[k]);
    forall v | 0 <= v < |t.viewers| ensures ViewerOk(t, t.viewers[v]) { ViewerStays(s, t, s.viewers[v]); }
  }

  lemma ViewersChangeKeeps(s: Stream, t: Stream)
    requires StreamOk(s) && t == s.(viewers := t.viewers)
    requires forall v :: 0 <= v < |t.viewers| ==> ViewerOk(s, t.viewers[v])
    ensures StreamOk(t)
  {
    assert forall id :: id in t.logs ==> LogOk(s, id) && LogOk(t, id);
    assert forall k :: k in t.flights ==> Issued(s, t.flights[k]) && Issued(t, t.flights[k]);
    forall v | 0 <= v < |t.viewers| ensures ViewerOk(t, t.viewers[v]) { ViewerStays(s, t, t.viewers[v]); }
  }

  lemma InstallKeeps(s: Stream, id: Id, channel: nat)
    requires StreamOk(s)
    ensures StreamOk(Install(s, id, channel))
  {
    ViewersChangeKeeps(s, Install(s, id, channel));
  }

  lemma SnapshotKeeps(s: Stream, v: nat)
    requires StreamOk(s) && v < |s.viewers| && LogOk(s, s.viewers[v].id)
    ensures StreamOk(Snapshot(s, v))
  {
    var t := Snapshot(s, v);
    assert ViewerOk(s, s.viewers[v]);
    assert QueueOk(s, t.viewers[v]) && PhaseOk(s, t.viewers[v]);
    ViewersChangeKeeps(s, t);
  }

  lemma LeaveKeeps(s: Stream, v: nat)
    requires StreamOk(s) && v < |s.viewers|
    ensures StreamOk(Leave(s, v))
  {
    var t := Leave(s, v);
    assert ViewerOk(s, s.viewers[v]);
    assert QueueOk(s, t.viewers[v]) && PhaseOk(s, t.viewers[v]);
    ViewersChangeKeeps(s, t);
  }

  lemma DropHistoriesKeeps(s: Stream, ids: set<Id>)
    requires StreamOk(s)
    ensures StreamOk(DropHistories(s, ids)) && Later(s, DropHistories(s, ids))
  {
    var t := DropHistories(s, ids);
    assert Later(s, t);
    assert forall id :: id in t.logs ==> id in s.logs && LogOk(s, id) && LogOk(t, id);
    forall k | k in t.flights ensures Issued(t, t.flights[k]) { IssuedStays(s, t, s.flights[k]); }
    forall v | 0 <= v < |t.viewers| ensures ViewerOk(t, t.viewers[v]) { ViewerStays(s, t, s.viewers[v]); }
  }

  // ---- nothing is shown twice -------------------------------------------------------

  /** The live entries that pass the sequence filter of `stream_console`. */
  function Live(queue: seq<Item>, through: nat): seq<Item> {
    if queue == [] then [] else
      (if queue[0].sequence > through then [queue[0]] else []) + Live(queue[1..], through)
  }

  /** Everything a streaming viewer has been shown: first the replay, then the filtered live entries. */
  function Shown(viewer: Viewer): seq<Item>
    requires viewer.phase.Streaming? && viewer.phase.from + |viewer.phase.replayed| == viewer.phase.through
  {
    var phase := viewer.phase;
    seq(|phase.replayed|, i requires 0 <= i < |phase.replayed| =>
      Item(viewer.id, phase.incarnation, phase.from + i + 1, phase.replayed[i])) + Live(viewer.queue, phase.through)
  }

  ghost predicate NoRepeats(items: seq<Item>) {
    forall i, j :: 0 <= i < j < |items| ==> !Same(items[i], items[j])
  }

  lemma {:induction false} LiveFilters(queue: seq<Item>, through: nat)
    ensures forall item :: item in Live(queue, through) <==> item in queue && item.sequence > through
    ensures NoRepeats(queue) ==> NoRepeats(Live(queue, through))
  {
    if queue != [] {
      LiveFilters(queue[1..], through);
      var live := Live(queue, through);
      assert queue == [queue[0]] + queue[1..];
      if NoRepeats(queue) {
        assert NoRepeats(queue[1..]);
        forall i, j | 0 <= i < j < |live| ensures !Same(live[i], live[j]) {
          if queue[0].sequence > through {
            var rest := Live(queue[1..], through);
            assert live[j] == rest[j - 1];
            if i == 0 {
              assert rest[j - 1] in queue[1..];
              var k :| 0 <= k < |queue[1..]| && queue[1..][k] == live[j];
              assert !Same(queue[0], queue[k + 1]);
            } else {
              assert !Same(rest[i - 1], rest[j - 1]);
            }
          }
        }
      }
    }
  }

  /** No entry is both replayed and shown live, and none is shown twice,
      whatever was evicted, removed or trimmed meanwhile. */
  lemma ShownOnce(s: Stream, v: nat)
    requires StreamOk(s) && v < |s.viewers| && s.viewers[v].phase.Streaming?
    ensures s.viewers[v].phase.from + |s.viewers[v].phase.replayed| == s.viewers[v].phase.through
    ensures NoRepeats(Shown(s.viewers[v]))
  {
    var viewer := s.viewers[v];
    assert ViewerOk(s, viewer);
    var phase := viewer.phase;
    var shown, live := Shown(viewer), Live(viewer.queue, phase.through);
    LiveFilters(viewer.queue, phase.through);
    forall i, j | 0 <= i < j < |shown| ensures !Same(shown[i], shown[j]) {
      var n := |phase.replayed|;
      if j < n {
      } else if i < n {
        assert shown[j] == live[j - n];
        assert live[j - n] in live;
        assert shown[j].sequence > phase.through >= shown[i].sequence;
      } else {
        assert !Same(live[i - n], live[j - n]);
      }
    }
  }

  // ---- a line arrives -----------------------------------------------------------------

  /** A viewer gets the entry exactly if it is still there and on that channel. */
  predicate Gets(before: Viewer, after: Viewer, channel: nat, item: Item) {
    after == if before.open && before.channel == channel then before.(queue := before.queue + [item]) else before
  }

  /** A line that is pushed and sent has the next number of its server's log, and
      is the next entry of every receiver on the channel. */
  lemma PushThenSend(s: Stream, slot: int, id: Id, record: Record, after: map<Id, Log<Record>>, channel: nat)
    requires PushEffect(s.logs, after, id, record)
    ensures slot in Push(s, slot, id, record, after).flights
    ensures var t := Send(Push(s, slot, id, record, after), slot, channel);
      && t.logs == after && LogOf(after, id).items == LogOf(s.logs, id).items + [record]
      && t.flights == s.flights - {slot} && |t.viewers| == |s.viewers|
      && forall v :: 0 <= v < |s.viewers| ==>
        Gets(s.viewers[v], t.viewers[v], channel, Item(id, Drops(s, id), Pushed(s, id) + 1, record))
  {
    var t := Send(Push(s, slot, id, record, after), slot, channel);
    assert t.flights == s.flights - {slot};
  }

  // ---- nothing is lost ------------------------------------------------------------------

  predicate Queued(viewer: Viewer, n: nat) {
    exists i :: 0 <= i < |viewer.queue| && viewer.queue[i].incarnation == viewer.incarnation && viewer.queue[i].sequence == n
  }

  ghost predicate Flying(s: Stream, id: Id, n: nat) {
    exists slot :: slot in s.flights && s.flights[slot].id == id
      && s.flights[slot].incarnation == Drops(s, id) && s.flights[slot].sequence == n
  }

  /** As long as its server's history is not dropped, every entry pushed after
      the receiver was installed is in the receiver or still in flight to it. */
  ghost predicate Complete(s: Stream, viewer: Viewer) {
    viewer.incarnation == Drops(s, viewer.id) ==>
      && viewer.installed <= Pushed(s, viewer.id)
      && forall n :: viewer.installed < n <= Pushed(s, viewer.id) ==> Queued(viewer, n) || Flying(s, viewer.id, n)
  }

  lemma PushComplete(s: Stream, slot: int, id: Id, record: Record, after: map<Id, Log<Record>>, viewer: Viewer)
    requires PushEffect(s.logs, after, id, record) && slot !in s.flights
    requires Complete(s, viewer) && viewer.incarnation <= Drops(s, viewer.id)
    ensures Complete(Push(s, slot, id, record, after), viewer)
  {
    var t := Push(s, slot, id, record, after);
    PushIsLater(s, slot, id, record, after);
    assert Drops(s, viewer.id) <= Drops(t, viewer.id);
    if viewer.incarnation == Drops(t, viewer.id) {
      forall n | viewer.installed < n <= Pushed(t, viewer.id) ensures Queued(viewer, n) || Flying(t, viewer.id, n) {
        if n <= Pushed(s, viewer.id) {
          if !Queued(viewer, n) {
            var k :| k in s.flights && s.flights[k].id == viewer.id
              && s.flights[k].incarnation == Drops(s, viewer.id) && s.flights[k].sequence == n;
            assert t.flights[k] == s.flights[k];
          }
        } else {
          assert viewer.id == id && n == |after[id].items|;
          assert t.flights[slot].sequence == n;
        }
      }
    }
  }

  lemma SendComplete(s: Stream, slot: int, channel: nat, v: nat)
    requires slot in s.flights && v < |s.viewers| && Complete(s, s.viewers[v])
    requires s.viewers[v].open && (s.viewers[v].id == s.flights[slot].id ==> s.viewers[v].channel == channel)
    ensures Complete(Send(s, slot, channel), Send(s, slot, channel).viewers[v])
  {
    var t, before, after := Send(s, slot, channel), s.viewers[v], Send(s, slot, channel).viewers[v];
    if after.incarnation == Drops(t, after.id) {
      forall n | after.installed < n <= Pushed(t, after.id) ensures Queued(after, n) || Flying(t, after.id, n) {
        if Queued(before, n) {
          var i :| 0 <= i < |before.queue| && before.queue[i].incarnation == before.incarnation && before.queue[i].sequence == n;
          assert after.queue[i] == before.queue[i];
        } else {
          var k :| k in s.flights && s.flights[k].id == before.id
            && s.flights[k].incarnation == Drops(s, before.id) && s.flights[k].sequence == n;
          if k == slot {
            assert after.queue[|before.queue|] == s.flights[slot];
          } else {
            assert t.flights[k] == s.flights[k];
          }
        }
      }
    }
  }

  /** Giving up an entry costs a viewer nothing unless it is one of those it is owed. */
  lemma AbandonComplete(s: Stream, slot: int, viewer: Viewer)
    requires Complete(s, viewer)
    requires slot in s.flights && s.flights[slot].id == viewer.id ==>
      || s.flights[slot].incarnation != Drops(s, viewer.id) || s.flights[slot].sequence <= viewer.installed
      || viewer.incarnation != Drops(s, viewer.id)
    ensures Complete(Abandon(s, slot), viewer)
  {
    var t := Abandon(s, slot);
    if viewer.incarnation == Drops(t, viewer.id) {
      forall n | viewer.installed < n <= Pushed(t, viewer.id) ensures Queued(viewer, n) || Flying(t, viewer.id, n) {
        if !Queued(viewer, n) {
          var k :| k in s.flights && s.flights[k].id == viewer.id
            && s.flights[k].incarnation == Drops(s, viewer.id) && s.flights[k].sequence == n;
          assert t.flights[k] == s.flights[k];
        }
      }
    }
  }

  lemma OthersComplete(s: Stream, t: Stream, viewer: Viewer)
    requires Complete(s, viewer) && viewer.incarnation <= Drops(s, viewer.id)
    requires t.flights == s.flights
    requires Drops(t, viewer.id) > Drops(s, viewer.id)
      || (Drops(t, viewer.id) == Drops(s, viewer.id) && LogOf(t.logs, viewer.id) == LogOf(s.logs, viewer.id))
    ensures Complete(t, viewer)
  {}

  /** For a viewer whose history was never dropped since it attached: every
      entry of that history has been shown, or is still in flight, or has left
      the bounded history, whether it was pushed before or after it attached. */
  lemma ShownUnlessTrimmed(s: Stream, v: nat, n: nat)
    requires StreamOk(s) && v < |s.viewers| && s.viewers[v].phase.Streaming?
    requires Complete(s, s.viewers[v]) && s.viewers[v].incarnation == Drops(s, s.viewers[v].id)
    requires 1 <= n <= Pushed(s, s.viewers[v].id)
    ensures var viewer := s.viewers[v];
      var entry := Item(viewer.id, viewer.incarnation, n, LogOf(s.logs, viewer.id).items[n - 1]);
      && viewer.phase.from + |viewer.phase.replayed| == viewer.phase.through
      && (entry in Shown(viewer) || Flying(s, viewer.id, n) || n <= LogOf(s.logs, viewer.id).trimmed)
  {
    var viewer := s.viewers[v];
    assert ViewerOk(s, viewer);
    var phase := viewer.phase;
    var entry := Item(viewer.id, viewer.incarnation, n, LogOf(s.logs, viewer.id).items[n - 1]);
    LiveFilters(viewer.queue, phase.through);
    if n > phase.through && n > viewer.installed {
      if Queued(viewer, n) {
        var i :| 0 <= i < |viewer.queue| && viewer.queue[i].incarnation == viewer.incarnation && viewer.queue[i].sequence == n;
        assert Issued(s, viewer.queue[i]);
        assert viewer.queue[i] == entry;
        assert entry in Live(viewer.queue, phase.through);
      }
    } else if phase.from < n <= phase.through && phase.incarnation == viewer.incarnation {
      assert Shown(viewer)[n - phase.from - 1] == entry;
    }
  }

  /** Exactly which received entries a viewer gets to see: those past the
      replay, and those the replay itself contains. */
  lemma QueuedShownIff(s: Stream, v: nat, i: nat)
    requires StreamOk(s) && v < |s.viewers| && s.viewers[v].phase.Streaming? && i < |s.viewers[v].queue|
    ensures s.viewers[v].phase.from + |s.viewers[v].phase.replayed| == s.viewers[v].phase.through
    ensures var viewer := s.viewers[v];
      (exists k :: 0 <= k < |Shown(viewer)| && Same(Shown(viewer)[k], viewer.queue[i]))
      <==> (viewer.queue[i].sequence > viewer.phase.through
            || (viewer.queue[i].incarnation == viewer.phase.incarnation
                && viewer.phase.from < viewer.queue[i].sequence))
  {
    var viewer := s.viewers[v];
    assert ViewerOk(s, viewer);
    assert viewer.phase.from + |viewer.phase.replayed| == viewer.phase.through;
    hide StreamOk, ViewerOk, QueueOk, PhaseOk, LogOf, Issued, Drops;
    var phase, item := viewer.phase, viewer.queue[i];
    var shown, live := Shown(viewer), Live(viewer.queue, phase.through);
    var n := |phase.replayed|;
    LiveFilters(viewer.queue, phase.through);
    if item.sequence > phase.through {
      assert item in live;
      var j :| 0 <= j < |live| && live[j] == item;
      assert Same(shown[n + j], item);
    } else if item.incarnation == phase.incarnation && phase.from < item.sequence {
      assert Same(shown[item.sequence - phase.from - 1], item);
    } else {
      forall k | 0 <= k < |shown| ensures !Same(shown[k], item) {
        if k >= n {
          assert shown[k] == live[k - n] && live[k - n] in live;
        }
      }
    }
  }
}
