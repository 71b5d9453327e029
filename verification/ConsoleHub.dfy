/** The console hub as a step system (src/grpc/services/console).

    Every action is one section that runs under a single lock acquisition, so a
    run is any interleaving of viewers, readers, supervisor lines, removals and
    synchronizations.  An operation that keeps the lifecycle lock over several
    sections is recorded as the `holder`. */
module ConsoleHub {
  import opened ConsoleHistory
  import opened ConsoleLifecycle
  import S = ConsoleStream

  /** The producer slot of supervisor lines, which are published under the lifecycle lock. */
  const SUPERVISOR: int := -1

  /** Where a reader task is; `Retiring` waits for the lifecycle lock, `Leaving` holds it. */
  datatype Pc = Waiting | Prepared(line: Line) | Sending | Retiring | Leaving | Finished

  /** A spawned reader task; `born` is the generation of its server it was started for. */
  datatype Task = Task(id: Id, active: bool, born: nat, channel: nat, pc: Pc)

  datatype Holder =
    | Free
    | Purging(ids: set<Id>, atHistory: bool)
    | Publishing(id: Id, line: Line)
    | PublishSending(id: Id)
    | Subscribing(id: Id)
    | RetiringAt(task: nat, atHistory: bool)

  /** `channels` names the server each channel was opened for.  `epochs` counts
      how often each id was withdrawn, that is, removed or dropped by the
      bootstrap snapshot, and `joined` is the count each viewer subscribed at.
      `left` holds the ids that still have a sender which a cancelled purge should have dropped. */
  datatype Hub = Hub(
    docker: bool, capacity: nat, lc: Lifecycle, holder: Holder, senders: map<Id, nat>,
    channels: seq<Id>, tasks: seq<Task>, epochs: map<Id, nat>, joined: seq<nat>,
    left: set<Id>, stream: S.Stream)

  datatype Action =
    | TrackServer(id: Id)
    | SynchronizeServers(ids: seq<Id>)
    | BeginRemove(id: Id)
    | PurgeSenders
    | PurgeHistory
    | CancelPurge
    | BeginPublish(id: Id, line: Line)
    | PublishPush(after: map<Id, Log<S.Record>>)
    | PublishSend
    | BeginSubscribe(id: Id)
    | InstallReceiver
    | CancelSubscribe
    | TakeSnapshot(viewer: nat)
    | LeaveViewer(viewer: nat)
    | ReaderPrepare(task: nat, line: Line)
    | ReaderPush(task: nat, after: map<Id, Log<S.Record>>)
    | ReaderSend(task: nat)
    | ReaderStop(task: nat)
    | ReaderIdle(task: nat)
    | BeginRetire(task: nat)
    | RetireSenders
    | RetireHistory

  function Initial(docker: bool, capacity: nat): Hub {
    Hub(docker, capacity, INITIAL, Free, map[], [], [], map[], [], {}, S.Stream(map[], map[], map[], []))
  }

  // ---- observations ------------------------------------------------------------------

  function Epoch(h: Hub, id: Id): nat { if id in h.epochs then h.epochs[id] else 0 }

  predicate HasReceivers(h: Hub, channel: nat) {
    exists v :: 0 <= v < |h.stream.viewers| && h.stream.viewers[v].open && h.stream.viewers[v].channel == channel
  }

  /** The ids whose reader task has not finished. */
  function LiveIds(h: Hub): set<Id> {
    set id | id in h.lc.readers && h.lc.readers[id] < |h.tasks| && h.tasks[h.lc.readers[id]].pc != Finished
  }

  /** `validate_reader_capacity` */
  predicate CapacityAllows(h: Hub, id: Id) {
    !h.docker || id in LiveIds(h) || |LiveIds(h)| < h.capacity
  }

  predicate Purges(h: Hub, id: Id) { h.holder.Purging? && id in h.holder.ids }

  // ---- sections -----------------------------------------------------------------------

  /** `stop_reader` on each withdrawn id: the task in the map loses its `active` flag. */
  function StopReaders(h: Hub, ids: set<Id>): (tasks: seq<Task>)
    ensures |tasks| == |h.tasks|
  {
    seq(|h.tasks|, r requires 0 <= r < |h.tasks| =>
      var task := h.tasks[r];
      if task.id in ids && task.id in h.lc.readers && h.lc.readers[task.id] == r
      then task.(active := false) else task)
  }

  /** The ids left behind once a purge has been cancelled. */
  function LeftBy(h: Hub): set<Id>
    requires h.holder.Purging?
  {
    if h.holder.atHistory then h.left else h.left + h.holder.ids * h.senders.Keys
  }

  function Withdraw(h: Hub, lc: Lifecycle, ids: set<Id>): Hub {
    h.(lc := lc, tasks := StopReaders(h, ids), epochs := S.Bump(h.epochs, ids),
       holder := if ids == {} then Free else Purging(ids, false))
  }

  /** `ensure_reader_locked` and `start_reader_locked` */
  function EnsureReader(h: Hub, id: Id, channel: nat): Hub {
    if id in LiveIds(h) || !h.docker then
      if id in LiveIds(h) then h else h.(lc := h.lc.(readers := h.lc.readers - {id}), tasks := StopReaders(h, {id}))
    else h.(lc := h.lc.(readers := h.lc.readers[id := |h.tasks|]),
            tasks := StopReaders(h, {id}) + [Task(id, true, Epoch(h, id), channel, Waiting)])
  }

  function ChannelOf(h: Hub, id: Id): nat { if id in h.senders then h.senders[id] else |h.channels| }

  function OpenChannel(h: Hub, id: Id): Hub {
    var ready := if id in h.senders then h else
      h.(senders := h.senders[id := |h.channels|], channels := h.channels + [id]);
    ready.(stream := S.Install(h.stream, id, ChannelOf(h, id)), joined := h.joined + [Epoch(h, id)], holder := Free)
  }

  function InstallFor(h: Hub, id: Id): Hub {
    EnsureReader(OpenChannel(h, id), id, ChannelOf(h, id))
  }

  function At(h: Hub, r: nat, pc: Pc): Hub
    requires r < |h.tasks|
  {
    h.(tasks := h.tasks[r := h.tasks[r].(pc := pc)])
  }

  /** The senders section of `publish_prepared`. */
  function Deliver(h: Hub, slot: int): S.Stream
    requires slot in h.stream.flights
  {
    var id := h.stream.flights[slot].id;
    if id in h.senders then S.Send(h.stream, slot, h.senders[id]) else S.Abandon(h.stream, slot)
  }

  /** `retire_idle_reader` once it has the lifecycle lock. */
  function Retire(h: Hub, r: nat): Hub
    requires r < |h.tasks|
  {
    var task := h.tasks[r];
    if !(task.id in h.lc.readers && h.lc.readers[task.id] == r) then At(h, r, Finished)
    else
      var left := h.lc.(readers := h.lc.readers - {task.id});
      if HasReceivers(h, task.channel) && task.id in h.lc.desired then
        h.(lc := left.(readers := left.readers[task.id := |h.tasks|]),
           tasks := h.tasks[r := task.(pc := Finished)]
                    + [Task(task.id, true, Epoch(h, task.id), task.channel, Waiting)])
      else At(h, r, Leaving).(lc := left, holder := RetiringAt(r, false))
  }

  /** The retiring reader's channel is still its server's, and nobody receives from it. */
  predicate LastOf(h: Hub, r: nat)
    requires r < |h.tasks|
  {
    var task := h.tasks[r];
    task.id in h.senders && h.senders[task.id] == task.channel && !HasReceivers(h, task.channel)
  }

  function RetireSendersOf(h: Hub, r: nat): Hub
    requires r < |h.tasks|
  {
    var id := h.tasks[r].id;
    h.(senders := if LastOf(h, r) then h.senders - {id} else h.senders,
       left := if LastOf(h, r) then h.left - {id} else h.left, holder := RetiringAt(r, true))
  }

  ghost predicate Enabled(h: Hub, a: Action) {
    match a
    case TrackServer(_) => h.holder.Free?
    case SynchronizeServers(_) => h.holder.Free?
    case BeginRemove(_) => h.holder.Free?
    case PurgeSenders => h.holder.Purging? && !h.holder.atHistory
    case PurgeHistory => h.holder.Purging? && h.holder.atHistory
    case CancelPurge => h.holder.Purging?
    case BeginPublish(id, _) => h.holder.Free? && PublishAdmitted(h.lc, id)
    case PublishPush(after) => h.holder.Publishing?
      && PushEffect(h.stream.logs, after, h.holder.id, S.Record(h.holder.line, SUPERVISOR, Epoch(h, h.holder.id)))
    case PublishSend => h.holder.PublishSending? && SUPERVISOR in h.stream.flights
    case BeginSubscribe(id) => h.holder.Free? && ValidateSubscription(h.lc, id).Success?
    case InstallReceiver => h.holder.Subscribing?
    case CancelSubscribe => h.holder.Subscribing?
    case TakeSnapshot(v) => v < |h.stream.viewers| && h.stream.viewers[v].phase.Attaching?
      && S.LogOk(h.stream, h.stream.viewers[v].id)
    case LeaveViewer(v) => v < |h.stream.viewers|
    case ReaderPrepare(r, _) => r < |h.tasks| && h.tasks[r].pc == Waiting && h.tasks[r].active
    case ReaderPush(r, after) => r < |h.tasks| && h.tasks[r].pc.Prepared?
      && (h.tasks[r].active ==>
        PushEffect(h.stream.logs, after, h.tasks[r].id, S.Record(h.tasks[r].pc.line, r, h.tasks[r].born)))
    case ReaderSend(r) => r < |h.tasks| && h.tasks[r].pc == Sending && r in h.stream.flights
    // An aborted task may end at any await; a running one only fails between lines.
    case ReaderStop(r) => r < |h.tasks| && h.tasks[r].pc != Finished && h.tasks[r].pc != Leaving
      && (!h.tasks[r].active || h.tasks[r].pc == Waiting)
    case ReaderIdle(r) => r < |h.tasks| && h.tasks[r].pc == Waiting
    case BeginRetire(r) => r < |h.tasks| && h.tasks[r].pc == Retiring && h.holder.Free?
    case RetireSenders => h.holder.RetiringAt? && !h.holder.atHistory && h.holder.task < |h.tasks|
    case RetireHistory => h.holder.RetiringAt? && h.holder.atHistory && h.holder.task < |h.tasks|
  }

  ghost function Step(h: Hub, a: Action): Hub
    requires Enabled(h, a)
  {
    match a
    case TrackServer(id) => h.(lc := Track(h.lc, id))
    case SynchronizeServers(ids) => Withdraw(h, Synchronize(h.lc, ids), Withdrawn(h.lc, ids))
    case BeginRemove(id) => Withdraw(h, Remove(h.lc, id), {id})
    case PurgeSenders =>
      h.(senders := h.senders - h.holder.ids, left := h.left - h.holder.ids, holder := Purging(h.holder.ids, true))
    case PurgeHistory =>
      h.(stream := S.DropHistories(h.stream, h.holder.ids), holder := Free)
    // The call is dropped while it waits for the senders, or for the history.
    case CancelPurge => h.(left := LeftBy(h), holder := Free)
    case BeginPublish(id, line) => h.(holder := Publishing(id, line))
    case PublishPush(after) =>
      var id, record := h.holder.id, S.Record(h.holder.line, SUPERVISOR, Epoch(h, h.holder.id));
      h.(stream := S.Push(h.stream, SUPERVISOR, id, record, after), holder := PublishSending(id))
    case PublishSend => h.(stream := Deliver(h, SUPERVISOR), holder := Free)
    case BeginSubscribe(id) =>
      h.(lc := ValidateSubscription(h.lc, id).value, holder := if CapacityAllows(h, id) then Subscribing(id) else Free)
    case InstallReceiver => InstallFor(h, h.holder.id)
    case CancelSubscribe => h.(holder := Free)
    case TakeSnapshot(v) => h.(stream := S.Snapshot(h.stream, v))
    case LeaveViewer(v) => h.(stream := S.Leave(h.stream, v))
    case ReaderPrepare(r, line) => At(h, r, Prepared(line))
    case ReaderPush(r, after) =>
      if !h.tasks[r].active then At(h, r, Finished) else
        var record := S.Record(h.tasks[r].pc.line, r, h.tasks[r].born);
        At(h, r, Sending).(stream := S.Push(h.stream, r, h.tasks[r].id, record, after))
    case ReaderSend(r) =>
      if h.tasks[r].active then At(h, r, Waiting).(stream := Deliver(h, r))
      else At(h, r, Finished).(stream := S.Abandon(h.stream, r))
    case ReaderStop(r) => At(h, r, Finished).(stream := S.Abandon(h.stream, r))
    case ReaderIdle(r) => At(h, r, Retiring)
    case BeginRetire(r) => Retire(h, r)
    case RetireSenders => RetireSendersOf(h, h.holder.task)
    case RetireHistory =>
      At(h, h.holder.task, Finished).(stream := S.DropHistories(h.stream, {h.tasks[h.holder.task].id}), holder := Free)
  }

  // ---- invariant ----------------------------------------------------------------------------

  ghost predicate TaskOk(h: Hub, r: nat)
    requires r < |h.tasks|
  {
    var task := h.tasks[r];
    && task.born <= Epoch(h, task.id)
    && task.channel < |h.channels| && h.channels[task.channel] == task.id
    && (task.active && task.pc != Finished && task.pc != Leaving ==>
      task.id in h.lc.readers && h.lc.readers[task.id] == r)
    && (!task.active && task.pc != Finished ==> task.born < Epoch(h, task.id) && task.pc != Leaving)
    && (task.pc == Leaving <==> h.holder.RetiringAt? && h.holder.task == r)
    && (task.pc == Sending <==> r in h.stream.flights)
  }

  ghost predicate ReaderOk(h: Hub, id: Id)
    requires id in h.lc.readers
  {
    var r := h.lc.readers[id];
    && r < |h.tasks|
    && h.tasks[r].id == id && h.tasks[r].active && h.tasks[r].born == Epoch(h, id) && h.tasks[r].pc != Leaving
    && id in h.senders && h.senders[id] == h.tasks[r].channel
  }

  /** Readers: the active, unfinished tasks are exactly those of the reader map. */
  ghost predicate TasksOk(h: Hub) {
    && (forall r :: 0 <= r < |h.tasks| ==> TaskOk(h, r))
    && (forall id :: id in h.lc.readers ==> ReaderOk(h, id))
  }

  ghost predicate CapacityOk(h: Hub) {
    && |LiveIds(h)| <= h.capacity
    && (!h.docker ==> h.tasks == [])
    && (h.holder.Subscribing? && h.docker ==> |LiveIds(h) - {h.holder.id}| < h.capacity)
  }

  ghost predicate HolderOk(h: Hub) {
    && LifecycleOk(h.lc)
    && match h.holder
       case Purging(ids, atHistory) => ids !! h.lc.desired && (atHistory ==> ids !! h.senders.Keys)
       case Subscribing(id) => id in h.lc.desired
       case PublishSending(id) => SUPERVISOR in h.stream.flights
       case RetiringAt(r, atHistory) =>
         && r < |h.tasks| && h.tasks[r].active && h.tasks[r].born == Epoch(h, h.tasks[r].id)
         && h.tasks[r].id !in h.lc.readers && h.tasks[r].id in h.lc.desired
         && !HasReceivers(h, h.tasks[r].channel)
         && (if atHistory then h.tasks[r].id !in h.senders
             else h.tasks[r].id in h.senders && h.senders[h.tasks[r].id] == h.tasks[r].channel)
       case _ => true
  }

  /** A sender outlives its server only while the purge lasts, or where a purge was cancelled. */
  ghost predicate ChannelsOk(h: Hub) {
    && h.left <= h.senders.Keys
    && forall id :: id in h.senders ==>
      && h.senders[id] < |h.channels| && h.channels[h.senders[id]] == id
      && (id in h.lc.desired || (Purges(h, id) && !h.holder.atHistory) || id in h.left)
  }

  /** The viewer's server was not withdrawn since it subscribed. */
  ghost predicate Attached(h: Hub, v: nat) {
    && v < |h.stream.viewers| && h.stream.viewers[v].open
    && v < |h.joined| && h.joined[v] == Epoch(h, h.stream.viewers[v].id)
  }

  ghost predicate ViewersOk(h: Hub) {
    && |h.joined| == |h.stream.viewers|
    && forall v :: 0 <= v < |h.stream.viewers| ==>
      var viewer := h.stream.viewers[v];
      && viewer.channel < |h.channels| && h.channels[viewer.channel] == viewer.id
      && h.joined[v] <= Epoch(h, viewer.id)
      && (Purges(h, viewer.id) ==> h.joined[v] < Epoch(h, viewer.id))
      && (Attached(h, v) ==> viewer.id in h.senders && h.senders[viewer.id] == viewer.channel)
  }

  /** A record carries the generation its author was started for. */
  ghost predicate AuthorOk(h: Hub, id: Id, record: S.Record) {
    record.author >= 0 ==>
      record.author < |h.tasks| && h.tasks[record.author].id == id && h.tasks[record.author].born == record.epoch
  }

  /** What a viewer received was written in the generation it subscribed in, or later. */
  ghost predicate ReceivedOk(h: Hub) {
    forall v, i :: 0 <= v < |h.stream.viewers| && 0 <= i < |h.stream.viewers[v].queue| ==>
      && AuthorOk(h, h.stream.viewers[v].id, h.stream.viewers[v].queue[i].record)
      && v < |h.joined| && h.joined[v] <= h.stream.viewers[v].queue[i].record.epoch
  }

  ghost predicate FlightsOk(h: Hub) {
    forall slot :: slot in h.stream.flights ==>
      var item := h.stream.flights[slot];
      && item.record.author == slot
      && AuthorOk(h, item.id, item.record)
      && (if slot == SUPERVISOR
          then h.holder.PublishSending? && h.holder.id == item.id && item.record.epoch == Epoch(h, item.id)
          else 0 <= slot < |h.tasks|)
  }

  /** What a viewer is owed was written in the generation it subscribed in. */
  ghost predicate Current(h: Hub, v: nat)
    requires v < |h.stream.viewers|
  {
    var viewer := h.stream.viewers[v];
    viewer.incarnation == S.Drops(h.stream, viewer.id) ==>
      forall n :: viewer.installed <= n < S.Pushed(h.stream, viewer.id) ==>
        LogOf(h.stream.logs, viewer.id).items[n].epoch == Epoch(h, viewer.id)
  }

  ghost predicate CompleteOk(h: Hub) {
    forall v :: 0 <= v < |h.stream.viewers| && Attached(h, v) ==>
      S.Complete(h.stream, h.stream.viewers[v]) && Current(h, v)
  }

  ghost predicate Inv(h: Hub) {
    && TasksOk(h) && CapacityOk(h) && HolderOk(h) && ChannelsOk(h) && ViewersOk(h)
    && ReceivedOk(h) && FlightsOk(h) && S.StreamOk(h.stream) && CompleteOk(h)
  }

  lemma InitialInv(docker: bool, capacity: nat)
    ensures Inv(Initial(docker, capacity))
  {}

  // ---- frames: what a section must leave alone ------------------------------------------------

  /** Tasks keep their identity and generation; new ones come behind. */
  ghost predicate TasksGrow(h: Hub, t: Hub) {
    && |h.tasks| <= |t.tasks|
    && forall r :: 0 <= r < |h.tasks| ==>
      t.tasks[r].id == h.tasks[r].id && t.tasks[r].born == h.tasks[r].born && t.tasks[r].channel == h.tasks[r].channel
  }

  ghost predicate SameRetiring(h: Hub, t: Hub) {
    && (t.holder.RetiringAt? <==> h.holder.RetiringAt?)
    && (t.holder.RetiringAt? ==> t.holder.task == h.holder.task)
  }

  lemma TasksFrame(h: Hub, t: Hub)
    requires TasksOk(h)
    requires t.tasks == h.tasks && t.epochs == h.epochs && t.channels == h.channels && t.lc.readers == h.lc.readers
    requires forall id :: id in h.lc.readers && id in h.senders ==> id in t.senders && t.senders[id] == h.senders[id]
    requires SameRetiring(h, t)
    requires forall r :: r >= 0 ==> (r in t.stream.flights <==> r in h.stream.flights)
    ensures TasksOk(t)
  {
    forall r | 0 <= r < |t.tasks| ensures TaskOk(t, r) { assert TaskOk(h, r); }
    forall id | id in t.lc.readers ensures ReaderOk(t, id) { assert ReaderOk(h, id); }
  }

  /** One task moves on; `Leaving` is entered and left only under the lifecycle lock. */
  lemma TaskMoves(h: Hub, t: Hub, r: nat, pc: Pc)
    requires TasksOk(h) && r < |h.tasks| && h.tasks[r].pc != Finished && h.tasks[r].pc != Leaving && pc != Leaving
    requires t.tasks == h.tasks[r := h.tasks[r].(pc := pc)] && t.lc == h.lc && t.epochs == h.epochs
    requires t.channels == h.channels && t.senders == h.senders && t.holder == h.holder
    requires forall k :: k >= 0 && k != r ==> (k in t.stream.flights <==> k in h.stream.flights)
    requires r in t.stream.flights <==> pc == Sending
    ensures TasksOk(t)
  {
    forall k | 0 <= k < |t.tasks| ensures TaskOk(t, k) { assert TaskOk(h, k); }
    forall id | id in t.lc.readers ensures ReaderOk(t, id) { assert ReaderOk(h, id); }
  }

  lemma SubsetCardinality<T>(a: set<T>, b: set<T>)
    requires a <= b
    ensures |a| <= |b|
  {
    assert b == a + (b - a);
  }

  lemma CapacityFrame(h: Hub, t: Hub)
    requires CapacityOk(h) && LiveIds(t) <= LiveIds(h) && t.capacity == h.capacity && t.docker == h.docker
    requires |t.tasks| == |h.tasks|
    requires t.holder == h.holder || !t.holder.Subscribing?
    ensures CapacityOk(t)
  {
    SubsetCardinality(LiveIds(t), LiveIds(h));
    if t.holder.Subscribing? {
      SubsetCardinality(LiveIds(t) - {t.holder.id}, LiveIds(h) - {h.holder.id});
    }
  }

  lemma AuthorStays(h: Hub, t: Hub, id: Id, record: S.Record)
    requires TasksGrow(h, t) && AuthorOk(h, id, record)
    ensures AuthorOk(t, id, record)
  {}

  lemma ReceivedFrame(h: Hub, t: Hub)
    requires ReceivedOk(h) && TasksGrow(h, t) && h.joined <= t.joined
    requires |h.stream.viewers| <= |t.stream.viewers|
    requires forall v :: 0 <= v < |h.stream.viewers| ==>
      t.stream.viewers[v].id == h.stream.viewers[v].id && t.stream.viewers[v].queue == h.stream.viewers[v].queue
    requires forall v :: |h.stream.viewers| <= v < |t.stream.viewers| ==> t.stream.viewers[v].queue == []
    ensures ReceivedOk(t)
  {
    forall v, i | 0 <= v < |t.stream.viewers| && 0 <= i < |t.stream.viewers[v].queue|
      ensures AuthorOk(t, t.stream.viewers[v].id, t.stream.viewers[v].queue[i].record)
      ensures v < |t.joined| && t.joined[v] <= t.stream.viewers[v].queue[i].record.epoch
    {
      assert t.stream.viewers[v].queue[i] == h.stream.viewers[v].queue[i];
      AuthorStays(h, t, h.stream.viewers[v].id, h.stream.viewers[v].queue[i].record);
    }
  }

  /** Viewers are owed what they were owed; some may have left. */
  lemma CompleteFrame(h: Hub, t: Hub)
    requires CompleteOk(h) && t.stream.logs == h.stream.logs && t.stream.drops == h.stream.drops
    requires t.stream.flights == h.stream.flights && |t.stream.viewers| == |h.stream.viewers|
    requires t.joined == h.joined
    requires forall v :: 0 <= v < |h.stream.viewers| && Attached(t, v) ==>
      Attached(h, v)
      && t.stream.viewers[v].id == h.stream.viewers[v].id && t.stream.viewers[v].queue == h.stream.viewers[v].queue
      && t.stream.viewers[v].incarnation == h.stream.viewers[v].incarnation
      && t.stream.viewers[v].installed == h.stream.viewers[v].installed
    ensures CompleteOk(t)
  {
    forall v | 0 <= v < |t.stream.viewers| && Attached(t, v)
      ensures S.Complete(t.stream, t.stream.viewers[v]) && Current(t, v)
    {
      assert Attached(h, v) && S.Complete(h.stream, h.stream.viewers[v]) && Current(h, v);
      SameDebts(h.stream, t.stream, h.stream.viewers[v], t.stream.viewers[v]);
    }
  }

  lemma SameDebts(s: S.Stream, t: S.Stream, a: S.Viewer, b: S.Viewer)
    requires S.Complete(s, a) && t.logs == s.logs && t.drops == s.drops && t.flights == s.flights
    requires a.id == b.id && a.queue == b.queue && a.incarnation == b.incarnation && a.installed == b.installed
    ensures S.Complete(t, b)
  {
    forall n | S.Flying(s, a.id, n) ensures S.Flying(t, b.id, n) {}
    forall n | S.Queued(a, n) ensures S.Queued(b, n) {}
  }

  lemma HolderFrame(h: Hub, t: Hub)
    requires HolderOk(h) && t.holder == h.holder && t.lc == h.lc && t.senders == h.senders && t.epochs == h.epochs
    requires TasksGrow(h, t)
    requires forall c :: HasReceivers(t, c) ==> HasReceivers(h, c)
    requires h.holder.RetiringAt? && h.holder.task < |h.tasks| ==> t.tasks[h.holder.task].active == h.tasks[h.holder.task].active
    requires SUPERVISOR in h.stream.flights ==> SUPERVISOR in t.stream.flights
    ensures HolderOk(t)
  {}

  lemma ChannelsFrame(h: Hub, t: Hub)
    requires ChannelsOk(h) && t.channels == h.channels
    requires forall id :: id in t.left ==> id in t.senders || (id in h.left && (id in h.senders ==> id in t.senders))
    requires forall id :: id in t.senders ==>
      && id in h.senders && t.senders[id] == h.senders[id]
      && (id in h.lc.desired ==> id in t.lc.desired) && (id in h.left ==> id in t.left)
      && (Purges(h, id) && !h.holder.atHistory ==> (Purges(t, id) && !t.holder.atHistory) || id in t.left)
    ensures ChannelsOk(t)
  {}

  /** A channel goes away only without receivers, or after its server was withdrawn. */
  lemma ViewersFrame(h: Hub, t: Hub)
    requires ViewersOk(h) && t.channels == h.channels && t.epochs == h.epochs && t.joined == h.joined
    requires |t.stream.viewers| == |h.stream.viewers|
    requires forall v :: 0 <= v < |h.stream.viewers| ==>
      && t.stream.viewers[v].id == h.stream.viewers[v].id && t.stream.viewers[v].channel == h.stream.viewers[v].channel
      && (t.stream.viewers[v].open ==> h.stream.viewers[v].open)
    requires forall id :: Purges(t, id) ==> Purges(h, id)
    requires forall id :: id in h.senders && !(id in t.senders && t.senders[id] == h.senders[id]) ==>
      !HasReceivers(h, h.senders[id]) || Purges(h, id)
    ensures ViewersOk(t)
  {}

  /** Nothing behind the lifecycle and senders locks changed. */
  lemma QuietFrame(h: Hub, t: Hub)
    requires HolderOk(h) && ChannelsOk(h) && ViewersOk(h)
    requires t == h.(tasks := t.tasks, stream := t.stream) && TasksGrow(h, t)
    requires |t.stream.viewers| == |h.stream.viewers|
    requires forall v :: 0 <= v < |h.stream.viewers| ==>
      && t.stream.viewers[v].id == h.stream.viewers[v].id && t.stream.viewers[v].channel == h.stream.viewers[v].channel
      && (t.stream.viewers[v].open ==> h.stream.viewers[v].open)
    requires h.holder.RetiringAt? && h.holder.task < |h.tasks| ==> t.tasks[h.holder.task].active == h.tasks[h.holder.task].active
    requires SUPERVISOR in h.stream.flights ==> SUPERVISOR in t.stream.flights
    ensures HolderOk(t) && ChannelsOk(t) && ViewersOk(t)
  {
    HolderFrame(h, t);
    hide HolderOk;
    ChannelsFrame(h, t);
    hide ChannelsOk;
    ViewersFrame(h, t);
  }

  lemma OneTask(h: Hub, r: nat)
    requires TasksOk(h) && r < |h.tasks|
    ensures TaskOk(h, r)
  {}

  lemma AtFacts(h: Hub, r: nat, pc: Pc)
    requires r < |h.tasks| && (h.tasks[r].pc != Finished || pc == Finished)
    ensures LiveIds(At(h, r, pc)) <= LiveIds(h) && TasksGrow(h, At(h, r, pc))
    ensures forall k :: 0 <= k < |h.tasks| ==> At(h, r, pc).tasks[k].active == h.tasks[k].active
  {}

  lemma FlightsFrame(h: Hub, t: Hub)
    requires FlightsOk(h) && TasksGrow(h, t)
    requires forall slot :: slot in t.stream.flights ==>
      slot in h.stream.flights && t.stream.flights[slot] == h.stream.flights[slot]
    requires SUPERVISOR in t.stream.flights ==> t.holder == h.holder && t.epochs == h.epochs
    ensures FlightsOk(t)
  {}

  // ---- each section keeps the invariant ----------------------------------------------------------

  lemma TrackKeeps(h: Hub, id: Id)
    requires Inv(h) && h.holder.Free?
    ensures Inv(h.(lc := Track(h.lc, id)))
  {
    hide TasksOk, ChannelsOk, ViewersOk, ReceivedOk, FlightsOk, S.StreamOk, CompleteOk;
    var t := h.(lc := Track(h.lc, id));
    TasksFrame(h, t);
    assert LiveIds(t) == LiveIds(h);
    SectionsKeepLifecycleOk(h.lc, Added(id));
    ChannelsFrame(h, t);
    ViewersFrame(h, t);
    ReceivedFrame(h, t);
    FlightsFrame(h, t);
    CompleteFrame(h, t);
  }

  /** Sections that only read, or only hand the lifecycle lock over. */
  lemma HandOverKeeps(h: Hub, t: Hub)
    requires Inv(h) && t == h.(holder := t.holder)
    requires (h.holder.Free? && t.holder.Publishing?) || (h.holder.Subscribing? && t.holder.Free?)
    requires SUPERVISOR !in h.stream.flights
    ensures Inv(t)
  {
    hide TasksOk, ChannelsOk, ViewersOk, ReceivedOk, FlightsOk, S.StreamOk, CompleteOk;
    TasksFrame(h, t);
    assert LiveIds(t) == LiveIds(h);
    ChannelsFrame(h, t);
    ViewersFrame(h, t);
    ReceivedFrame(h, t);
    FlightsFrame(h, t);
    CompleteFrame(h, t);
  }

  lemma PurgeSendersKeeps(h: Hub)
    requires Inv(h) && h.holder.Purging? && !h.holder.atHistory
    ensures Inv(h.(senders := h.senders - h.holder.ids, left := h.left - h.holder.ids, holder := Purging(h.holder.ids, true)))
  {
    var t := h.(senders := h.senders - h.holder.ids, left := h.left - h.holder.ids, holder := Purging(h.holder.ids, true));
    hide TasksOk, ChannelsOk, ViewersOk, ReceivedOk, FlightsOk, S.StreamOk, CompleteOk;
    TasksFrame(h, t);
    assert LiveIds(t) == LiveIds(h);
    ChannelsFrame(h, t);
    ViewersFrame(h, t);
    ReceivedFrame(h, t);
    FlightsNoSupervisor(h);
    FlightsFrame(h, t);
    CompleteFrame(h, t);
  }

  /** A call that is dropped half-way only gives the lifecycle lock back. */
  lemma CancelPurgeKeeps(h: Hub)
    requires Inv(h) && h.holder.Purging?
    ensures Inv(h.(left := LeftBy(h), holder := Free))
  {
    var t := h.(left := LeftBy(h), holder := Free);
    hide TasksOk, ChannelsOk, ViewersOk, ReceivedOk, FlightsOk, S.StreamOk, CompleteOk;
    TasksFrame(h, t);
    assert LiveIds(t) == LiveIds(h);
    ChannelsFrame(h, t);
    ViewersFrame(h, t);
    ReceivedFrame(h, t);
    FlightsNoSupervisor(h);
    FlightsFrame(h, t);
    CompleteFrame(h, t);
  }

  lemma FlightsNoSupervisor(h: Hub)
    requires FlightsOk(h) && !h.holder.PublishSending?
    ensures SUPERVISOR !in h.stream.flights
  {}

  lemma PurgeHistoryKeeps(h: Hub)
    requires Inv(h) && h.holder.Purging? && h.holder.atHistory
    ensures Inv(h.(stream := S.DropHistories(h.stream, h.holder.ids), holder := Free))
  {
    var t := h.(stream := S.DropHistories(h.stream, h.holder.ids), holder := Free);
    S.DropHistoriesKeeps(h.stream, h.holder.ids);
    hide TasksOk, ChannelsOk, ViewersOk, ReceivedOk, FlightsOk, S.StreamOk, CompleteOk;
    TasksFrame(h, t);
    assert LiveIds(t) == LiveIds(h);
    ChannelsFrame(h, t);
    ViewersFrame(h, t);
    ReceivedFrame(h, t);
    FlightsNoSupervisor(h);
    FlightsFrame(h, t);
    CompleteAfterDrop(h, t, h.holder.ids);
  }

  lemma CompleteAfterDrop(h: Hub, t: Hub, ids: set<Id>)
    requires CompleteOk(h) && S.StreamOk(h.stream) && t.stream == S.DropHistories(h.stream, ids)
    requires t.joined == h.joined && t.epochs == h.epochs
    ensures CompleteOk(t)
  {
    forall v | 0 <= v < |t.stream.viewers| && Attached(t, v)
      ensures S.Complete(t.stream, t.stream.viewers[v]) && Current(t, v)
    {
      var viewer := h.stream.viewers[v];
      assert Attached(h, v) && S.ViewerOk(h.stream, viewer) && Current(h, v);
      S.OthersComplete(h.stream, t.stream, viewer);
    }
  }

  lemma BeginSubscribeKeeps(h: Hub, id: Id)
    requires Inv(h) && h.holder.Free? && ValidateSubscription(h.lc, id).Success?
    ensures Inv(h.(lc := ValidateSubscription(h.lc, id).value, holder := if CapacityAllows(h, id) then Subscribing(id) else Free))
  {
    hide TasksOk, ChannelsOk, ViewersOk, ReceivedOk, FlightsOk, S.StreamOk, CompleteOk, CapacityOk, CapacityAllows, LiveIds;
    var t := h.(lc := ValidateSubscription(h.lc, id).value, holder := if CapacityAllows(h, id) then Subscribing(id) else Free);
    SubscribingCapacity(h, t, id);
    assert HolderOk(t) by { SectionsKeepLifecycleOk(h.lc, Subscribed(id)); }
    hide HolderOk;
    TasksFrame(h, t);
    ChannelsFrame(h, t);
    ViewersFrame(h, t);
    ReceivedFrame(h, t);
    FlightsNoSupervisor(h);
    FlightsFrame(h, t);
    CompleteFrame(h, t);
  }

  lemma SubscribingCapacity(h: Hub, t: Hub, id: Id)
    requires CapacityOk(h) && t == h.(lc := t.lc, holder := t.holder) && t.lc.readers == h.lc.readers
    requires t.holder == if CapacityAllows(h, id) then Subscribing(id) else Free
    ensures CapacityOk(t)
  {}

  /** A viewer takes its snapshot or leaves. */
  lemma ViewerMovesKeeps(h: Hub, v: nat, viewer: S.Viewer)
    requires Inv(h) && v < |h.stream.viewers|
    requires viewer == h.stream.viewers[v].(phase := viewer.phase, open := viewer.open)
    requires viewer.open ==> h.stream.viewers[v].open
    requires S.StreamOk(h.stream.(viewers := h.stream.viewers[v := viewer]))
    ensures Inv(h.(stream := h.stream.(viewers := h.stream.viewers[v := viewer])))
  {
    var t := h.(stream := h.stream.(viewers := h.stream.viewers[v := viewer]));
    assert forall k :: 0 <= k < |h.stream.viewers| ==>
      t.stream.viewers[k] == if k == v then viewer else h.stream.viewers[k];
    hide TasksOk, ChannelsOk, ViewersOk, ReceivedOk, FlightsOk, S.StreamOk, CompleteOk, HolderOk, CapacityOk;
    TasksFrame(h, t);
    CapacityFrame(h, t);
    QuietFrame(h, t);
    ReceivedFrame(h, t);
    FlightsFrame(h, t);
    CompleteFrame(h, t);
  }

  /** A reader prepares a line or notices that nobody is watching. */
  lemma ReaderMovesKeeps(h: Hub, r: nat, pc: Pc)
    requires Inv(h) && r < |h.tasks| && h.tasks[r].pc != Finished && h.tasks[r].pc != Leaving && h.tasks[r].pc != Sending
    requires pc != Leaving && pc != Sending
    ensures Inv(At(h, r, pc))
  {
    hide TasksOk, ChannelsOk, ViewersOk, ReceivedOk, FlightsOk, S.StreamOk, CompleteOk, HolderOk, CapacityOk, LiveIds, TasksGrow;
    var t := At(h, r, pc);
    OneTask(h, r);
    AtFacts(h, r, pc);
    TaskMoves(h, t, r, pc);
    CapacityFrame(h, t);
    QuietFrame(h, t);
    ReceivedFrame(h, t);
    FlightsFrame(h, t);
    CompleteFrame(h, t);
  }

  // ---- publishing ------------------------------------------------------------------------------------

  /** A producer that may write to its server's current generation. */
  ghost predicate MayWrite(h: Hub, slot: int, id: Id, record: S.Record) {
    && record.author == slot && slot !in h.stream.flights
    && AuthorOk(h, id, record) && record.epoch == Epoch(h, id)
  }

  ghost predicate AfterPush(h: Hub, t: Hub, slot: int, id: Id, record: S.Record, after: map<Id, Log<S.Record>>) {
    && PushEffect(h.stream.logs, after, id, record)
    && t == h.(tasks := t.tasks, holder := t.holder, stream := S.Push(h.stream, slot, id, record, after))
    && TasksGrow(h, t)
    && (if slot == SUPERVISOR then t.holder == PublishSending(id) else t.holder == h.holder && 0 <= slot < |h.tasks|)
  }

  lemma PushFlights(h: Hub, t: Hub, slot: int, id: Id, record: S.Record, after: map<Id, Log<S.Record>>)
    requires FlightsOk(h) && MayWrite(h, slot, id, record) && AfterPush(h, t, slot, id, record, after)
    requires slot == SUPERVISOR ==> !h.holder.PublishSending?
    ensures FlightsOk(t)
  {
    forall other | other in t.stream.flights ensures AuthorOk(t, t.stream.flights[other].id, t.stream.flights[other].record) {
      if other != slot { AuthorStays(h, t, h.stream.flights[other].id, h.stream.flights[other].record); }
    }
  }

  lemma PushCompletes(h: Hub, t: Hub, slot: int, id: Id, record: S.Record, after: map<Id, Log<S.Record>>)
    requires CompleteOk(h) && S.StreamOk(h.stream) && MayWrite(h, slot, id, record)
    requires AfterPush(h, t, slot, id, record, after)
    ensures CompleteOk(t)
  {
    hide S.Complete;
    forall v | 0 <= v < |t.stream.viewers| && Attached(t, v)
      ensures S.Complete(t.stream, t.stream.viewers[v]) && Current(t, v)
    {
      assert Attached(h, v) && S.ViewerOk(h.stream, h.stream.viewers[v]);
      S.PushComplete(h.stream, slot, id, record, after, h.stream.viewers[v]);
      PushCurrent(h, t, slot, id, record, after, v);
    }
  }

  lemma PushCurrent(h: Hub, t: Hub, slot: int, id: Id, record: S.Record, after: map<Id, Log<S.Record>>, v: nat)
    requires v < |h.stream.viewers| && Current(h, v) && S.ViewerOk(h.stream, h.stream.viewers[v])
    requires MayWrite(h, slot, id, record) && AfterPush(h, t, slot, id, record, after)
    ensures Current(t, v)
  {
    var viewer := h.stream.viewers[v];
    S.PushIsLater(h.stream, slot, id, record, after);
    assert S.Drops(h.stream, viewer.id) <= S.Drops(t.stream, viewer.id);
  }

  lemma PublishPushKeeps(h: Hub, after: map<Id, Log<S.Record>>)
    requires Inv(h) && h.holder.Publishing?
    requires PushEffect(h.stream.logs, after, h.holder.id, S.Record(h.holder.line, SUPERVISOR, Epoch(h, h.holder.id)))
    ensures Inv(h.(stream := S.Push(h.stream, SUPERVISOR, h.holder.id,
                                    S.Record(h.holder.line, SUPERVISOR, Epoch(h, h.holder.id)), after),
                   holder := PublishSending(h.holder.id)))
  {
    hide TasksOk, ChannelsOk, ViewersOk, ReceivedOk, FlightsOk, S.StreamOk, CompleteOk, CapacityOk, LiveIds, PushEffect;
    var id, record := h.holder.id, S.Record(h.holder.line, SUPERVISOR, Epoch(h, h.holder.id));
    var t := h.(stream := S.Push(h.stream, SUPERVISOR, id, record, after), holder := PublishSending(id));
    FlightsNoSupervisor(h);
    assert AfterPush(h, t, SUPERVISOR, id, record, after);
    S.PushKeeps(h.stream, SUPERVISOR, id, record, after);
    TasksFrame(h, t);
    CapacityFrame(h, t) by { assert LiveIds(t) == LiveIds(h) by { SameLive(h, t); } }
    ChannelsFrame(h, t);
    ViewersFrame(h, t);
    hide AfterPush;
    ReceivedFrame(h, t);
    PushFlights(h, t, SUPERVISOR, id, record, after);
    PushCompletes(h, t, SUPERVISOR, id, record, after);
  }

  lemma SameLive(h: Hub, t: Hub)
    requires t.tasks == h.tasks && t.lc.readers == h.lc.readers
    ensures LiveIds(t) == LiveIds(h)
  {}

  /** An active reader between its checks belongs to the current generation. */
  lemma ReaderMayWrite(h: Hub, r: nat)
    requires TasksOk(h) && HolderOk(h) && r < |h.tasks|
    requires h.tasks[r].active && h.tasks[r].pc != Finished && h.tasks[r].pc != Leaving
    ensures h.tasks[r].born == Epoch(h, h.tasks[r].id)
    ensures h.tasks[r].pc != Sending ==> r !in h.stream.flights
  {
    assert TaskOk(h, r);
    assert ReaderOk(h, h.tasks[r].id);
  }

  lemma ReaderPushKeeps(h: Hub, r: nat, after: map<Id, Log<S.Record>>)
    requires Inv(h) && r < |h.tasks| && h.tasks[r].pc.Prepared? && h.tasks[r].active
    requires PushEffect(h.stream.logs, after, h.tasks[r].id, S.Record(h.tasks[r].pc.line, r, h.tasks[r].born))
    ensures Inv(At(h, r, Sending).(stream := S.Push(h.stream, r, h.tasks[r].id,
                                     S.Record(h.tasks[r].pc.line, r, h.tasks[r].born), after)))
  {
    hide TasksOk, ChannelsOk, ViewersOk, ReceivedOk, FlightsOk, S.StreamOk, CompleteOk, CapacityOk, HolderOk, LiveIds,
         PushEffect, TasksGrow;
    var id, record := h.tasks[r].id, S.Record(h.tasks[r].pc.line, r, h.tasks[r].born);
    var moved := At(h, r, Sending);
    var t := moved.(stream := S.Push(h.stream, r, id, record, after));
    ReaderMayWrite(h, r);
    AtFacts(h, r, Sending);
    GrowsAlike(h, moved, t);
    assert AfterPush(h, t, r, id, record, after);
    S.PushKeeps(h.stream, r, id, record, after);
    TaskMoves(h, t, r, Sending);
    SameLive(moved, t);
    CapacityFrame(h, t);
    QuietFrame(h, t);
    hide AfterPush;
    ReceivedFrame(h, t);
    PushFlights(h, t, r, id, record, after);
    PushCompletes(h, t, r, id, record, after);
  }

  lemma GrowsAlike(h: Hub, moved: Hub, t: Hub)
    requires TasksGrow(h, moved) && t.tasks == moved.tasks
    ensures TasksGrow(h, t)
  {}

  // ---- sending -----------------------------------------------------------------------------------------

  /** What a delivery may leave behind. */
  ghost predicate AfterDelivery(h: Hub, t: Hub, slot: int) {
    && slot in h.stream.flights
    && t == h.(tasks := t.tasks, holder := t.holder, stream := Deliver(h, slot))
    && TasksGrow(h, t)
  }

  lemma DeliveryStream(h: Hub, slot: int)
    requires slot in h.stream.flights && S.StreamOk(h.stream) && ViewersOk(h) && ChannelsOk(h)
    ensures S.StreamOk(Deliver(h, slot))
  {
    var item := h.stream.flights[slot];
    if item.id in h.senders {
      forall v | 0 <= v < |h.stream.viewers| && h.stream.viewers[v].channel == h.senders[item.id]
        ensures h.stream.viewers[v].id == item.id
      {}
      hide S.StreamOk;
      S.SendKeeps(h.stream, slot, h.senders[item.id]);
    } else {
      hide S.StreamOk;
      S.AbandonKeeps(h.stream, slot);
    }
  }

  lemma DeliveryReceived(h: Hub, t: Hub, slot: int)
    requires ReceivedOk(h) && FlightsOk(h) && ChannelsOk(h) && ViewersOk(h) && AfterDelivery(h, t, slot)
    requires h.stream.flights[slot].record.epoch == Epoch(h, h.stream.flights[slot].id)
    ensures ReceivedOk(t)
  {
    var item := h.stream.flights[slot];
    forall v, i | 0 <= v < |t.stream.viewers| && 0 <= i < |t.stream.viewers[v].queue|
      ensures AuthorOk(t, t.stream.viewers[v].id, t.stream.viewers[v].queue[i].record)
      ensures t.joined[v] <= t.stream.viewers[v].queue[i].record.epoch
    {
      var before := h.stream.viewers[v];
      if i < |before.queue| {
        AuthorStays(h, t, before.id, before.queue[i].record);
      } else {
        assert before.channel == h.senders[item.id];
        AuthorStays(h, t, item.id, item.record);
      }
    }
  }

  lemma DeliveryCompletes(h: Hub, t: Hub, slot: int)
    requires CompleteOk(h) && ViewersOk(h) && AfterDelivery(h, t, slot)
    ensures CompleteOk(t)
  {
    hide S.Complete;
    var item := h.stream.flights[slot];
    forall v | 0 <= v < |t.stream.viewers| && Attached(t, v)
      ensures S.Complete(t.stream, t.stream.viewers[v]) && Current(t, v)
    {
      assert Attached(h, v) && Current(h, v);
      if item.id in h.senders {
        S.SendComplete(h.stream, slot, h.senders[item.id], v);
      } else {
        S.AbandonComplete(h.stream, slot, h.stream.viewers[v]);
      }
    }
  }

  lemma DeliveryViewers(h: Hub, slot: int)
    requires slot in h.stream.flights
    ensures |Deliver(h, slot).viewers| == |h.stream.viewers|
    ensures forall v :: 0 <= v < |h.stream.viewers| ==>
      var viewer := Deliver(h, slot).viewers[v];
      viewer.id == h.stream.viewers[v].id && viewer.channel == h.stream.viewers[v].channel && viewer.open == h.stream.viewers[v].open
    ensures Deliver(h, slot).flights == h.stream.flights - {slot}
    ensures Deliver(h, slot).logs == h.stream.logs
  {}

  lemma FlightFacts(h: Hub, slot: int)
    requires FlightsOk(h) && HolderOk(h) && slot in h.stream.flights
    ensures AuthorOk(h, h.stream.flights[slot].id, h.stream.flights[slot].record)
    ensures h.stream.flights[slot].record.author == slot
    ensures slot == SUPERVISOR ==> h.stream.flights[slot].record.epoch == Epoch(h, h.stream.flights[slot].id) && h.holder.PublishSending?
  {}

  lemma PublishSendKeeps(h: Hub)
    requires Inv(h) && h.holder.PublishSending? && SUPERVISOR in h.stream.flights
    ensures Inv(h.(stream := Deliver(h, SUPERVISOR), holder := Free))
  {
    hide TasksOk, ChannelsOk, ViewersOk, ReceivedOk, FlightsOk, S.StreamOk, CompleteOk, CapacityOk, LiveIds, Deliver;
    var t := h.(stream := Deliver(h, SUPERVISOR), holder := Free);
    FlightFacts(h, SUPERVISOR);
    DeliveryViewers(h, SUPERVISOR);
    assert AfterDelivery(h, t, SUPERVISOR);
    DeliveryStream(h, SUPERVISOR);
    TasksFrame(h, t);
    SameLive(h, t);
    CapacityFrame(h, t);
    ChannelsFrame(h, t);
    ViewersFrame(h, t);
    FlightsFrame(h, t);
    hide AfterDelivery;
    DeliveryReceived(h, t, SUPERVISOR);
    DeliveryCompletes(h, t, SUPERVISOR);
  }

  lemma ReaderSendKeeps(h: Hub, r: nat)
    requires Inv(h) && r < |h.tasks| && h.tasks[r].pc == Sending && r in h.stream.flights && h.tasks[r].active
    ensures Inv(At(h, r, Waiting).(stream := Deliver(h, r)))
  {
    hide TasksOk, ChannelsOk, ViewersOk, ReceivedOk, FlightsOk, S.StreamOk, CompleteOk, CapacityOk, HolderOk, LiveIds,
         Deliver, TasksGrow;
    var moved := At(h, r, Waiting);
    var t := moved.(stream := Deliver(h, r));
    ReaderMayWrite(h, r);
    FlightFacts(h, r);
    DeliveryViewers(h, r);
    AtFacts(h, r, Waiting);
    GrowsAlike(h, moved, t);
    assert AfterDelivery(h, t, r);
    DeliveryStream(h, r);
    TaskMoves(h, t, r, Waiting);
    SameLive(moved, t);
    CapacityFrame(h, t);
    QuietFrame(h, t);
    FlightsFrame(h, t);
    hide AfterDelivery;
    DeliveryReceived(h, t, r);
    DeliveryCompletes(h, t, r);
  }

  /** A stopped reader's entry is owed to nobody: its generation has ended. */
  lemma StoppedOwesNothing(h: Hub, r: nat, v: nat)
    requires TasksOk(h) && FlightsOk(h) && CompleteOk(h) && S.StreamOk(h.stream)
    requires r < |h.tasks| && !h.tasks[r].active && h.tasks[r].pc != Finished
    requires Attached(h, v) && h.stream.viewers[v].incarnation == S.Drops(h.stream, h.stream.viewers[v].id)
    requires r in h.stream.flights && h.stream.flights[r].id == h.stream.viewers[v].id
    ensures h.stream.flights[r].incarnation != S.Drops(h.stream, h.stream.viewers[v].id)
      || h.stream.flights[r].sequence <= h.stream.viewers[v].installed
  {
    var item := h.stream.flights[r];
    assert TaskOk(h, r);
    assert S.Issued(h.stream, item);
    assert AuthorOk(h, item.id, item.record);
    assert Current(h, v);
  }

  lemma ReaderStopKeeps(h: Hub, r: nat)
    requires Inv(h) && r < |h.tasks| && h.tasks[r].pc != Finished && h.tasks[r].pc != Leaving
    requires !h.tasks[r].active || h.tasks[r].pc == Waiting
    ensures Inv(At(h, r, Finished).(stream := S.Abandon(h.stream, r)))
  {
    hide TasksOk, ChannelsOk, ViewersOk, ReceivedOk, FlightsOk, S.StreamOk, CompleteOk, CapacityOk, HolderOk, LiveIds, TasksGrow;
    var moved := At(h, r, Finished);
    var t := moved.(stream := S.Abandon(h.stream, r));
    OneTask(h, r);
    AtFacts(h, r, Finished);
    GrowsAlike(h, moved, t);
    S.AbandonKeeps(h.stream, r);
    TaskMoves(h, t, r, Finished);
    SameLive(moved, t);
    CapacityFrame(h, t);
    QuietFrame(h, t);
    ReceivedFrame(h, t);
    FlightsFrame(h, t);
    StopCompletes(h, t, r);
  }

  lemma StopCompletes(h: Hub, t: Hub, r: nat)
    requires TasksOk(h) && FlightsOk(h) && S.StreamOk(h.stream) && CompleteOk(h)
    requires r < |h.tasks| && h.tasks[r].pc != Finished && (!h.tasks[r].active || h.tasks[r].pc == Waiting)
    requires t.stream == S.Abandon(h.stream, r) && t.joined == h.joined && t.epochs == h.epochs
    ensures CompleteOk(t)
  {
    hide TasksOk, FlightsOk, S.StreamOk, S.Complete;
    OneTask(h, r);
    forall v | 0 <= v < |t.stream.viewers| && Attached(t, v)
      ensures S.Complete(t.stream, t.stream.viewers[v]) && Current(t, v)
    {
      var viewer := h.stream.viewers[v];
      assert Attached(h, v) && S.Complete(h.stream, viewer) && Current(h, v);
      if r in h.stream.flights && h.stream.flights[r].id == viewer.id && viewer.incarnation == S.Drops(h.stream, viewer.id) {
        StoppedOwesNothing(h, r, v);
      }
      S.AbandonComplete(h.stream, r, viewer);
    }
  }

  // ---- withdrawing servers --------------------------------------------------------------------------------

  /** `lc` withdraws exactly `ids` (and may add others). */
  ghost predicate Withdraws(h: Hub, lc: Lifecycle, ids: set<Id>) {
    && LifecycleOk(lc)
    && lc.readers == h.lc.readers - ids
    && ids !! lc.desired && h.lc.desired - ids <= lc.desired
  }

  lemma WithdrawTasks(h: Hub, lc: Lifecycle, ids: set<Id>)
    requires TasksOk(h) && h.holder.Free? && Withdraws(h, lc, ids)
    ensures TasksOk(Withdraw(h, lc, ids)) && TasksGrow(h, Withdraw(h, lc, ids))
  {
    var t := Withdraw(h, lc, ids);
    forall r | 0 <= r < |t.tasks| ensures TaskOk(t, r) { assert TaskOk(h, r); }
    forall id | id in t.lc.readers ensures ReaderOk(t, id) { assert ReaderOk(h, id); }
  }

  lemma WithdrawChannels(h: Hub, lc: Lifecycle, ids: set<Id>)
    requires ChannelsOk(h) && ViewersOk(h) && HolderOk(h) && h.holder.Free? && Withdraws(h, lc, ids)
    ensures ChannelsOk(Withdraw(h, lc, ids)) && ViewersOk(Withdraw(h, lc, ids)) && HolderOk(Withdraw(h, lc, ids))
    ensures forall v: nat :: Attached(Withdraw(h, lc, ids), v) ==> Attached(h, v)
  {
    var t := Withdraw(h, lc, ids);
    forall v: nat | Attached(t, v) ensures Attached(h, v) {
      assert h.joined[v] <= Epoch(h, h.stream.viewers[v].id);
    }
  }

  lemma WithdrawKeeps(h: Hub, lc: Lifecycle, ids: set<Id>)
    requires Inv(h) && h.holder.Free? && Withdraws(h, lc, ids)
    ensures Inv(Withdraw(h, lc, ids))
  {
    hide TasksOk, ChannelsOk, ViewersOk, ReceivedOk, FlightsOk, S.StreamOk, CompleteOk, CapacityOk, HolderOk, LiveIds,
         TasksGrow, Attached;
    var t := Withdraw(h, lc, ids);
    WithdrawTasks(h, lc, ids);
    WithdrawChannels(h, lc, ids);
    WithdrawLive(h, lc, ids);
    CapacityFrame(h, t);
    ReceivedFrame(h, t);
    FlightsNoSupervisor(h);
    FlightsFrame(h, t);
    CompleteFrame(h, t);
  }

  lemma WithdrawLive(h: Hub, lc: Lifecycle, ids: set<Id>)
    requires Withdraws(h, lc, ids)
    ensures LiveIds(Withdraw(h, lc, ids)) <= LiveIds(h)
  {}

  // ---- attaching a viewer -----------------------------------------------------------------------------------

  lemma OpenTasks(h: Hub, id: Id)
    requires TasksOk(h) && h.holder == Subscribing(id)
    ensures TasksOk(OpenChannel(h, id))
  {
    var t := OpenChannel(h, id);
    forall r | 0 <= r < |t.tasks| ensures TaskOk(t, r) { assert TaskOk(h, r); }
    forall other | other in t.lc.readers ensures ReaderOk(t, other) { assert ReaderOk(h, other); }
  }

  lemma OpenChannels(h: Hub, id: Id)
    requires ChannelsOk(h) && HolderOk(h) && h.holder == Subscribing(id)
    ensures ChannelsOk(OpenChannel(h, id)) && HolderOk(OpenChannel(h, id))
    ensures id in OpenChannel(h, id).senders && id in OpenChannel(h, id).lc.desired
  {}

  lemma OpenViewers(h: Hub, id: Id)
    requires ChannelsOk(h) && ViewersOk(h) && !h.holder.Purging?
    ensures ViewersOk(OpenChannel(h, id))
  {
    var t := OpenChannel(h, id);
    forall v | 0 <= v < |h.stream.viewers| ensures t.stream.viewers[v] == h.stream.viewers[v] && (Attached(t, v) ==> Attached(h, v)) {}
  }

  lemma OpenCompletes(h: Hub, id: Id)
    requires CompleteOk(h) && ViewersOk(h)
    ensures CompleteOk(OpenChannel(h, id))
  {}

  lemma OpenChannelKeeps(h: Hub, id: Id)
    requires Inv(h) && h.holder == Subscribing(id)
    ensures Inv(OpenChannel(h, id))
    ensures h.docker ==> |LiveIds(OpenChannel(h, id)) - {id}| < h.capacity
  {
    hide TasksOk, ChannelsOk, ViewersOk, ReceivedOk, FlightsOk, S.StreamOk, CompleteOk, HolderOk, LiveIds;
    var t := OpenChannel(h, id);
    OpenTasks(h, id);
    OpenChannels(h, id);
    OpenViewers(h, id);
    OpenCompletes(h, id);
    SameLive(h, t);
    S.InstallKeeps(h.stream, id, ChannelOf(h, id));
    ReceivedFrame(h, t);
    FlightsNoSupervisor(h);
    FlightsFrame(h, t);
  }

  lemma NoFutureFlights(h: Hub)
    requires FlightsOk(h)
    ensures |h.tasks| !in h.stream.flights
  {}

  lemma EnsureReaderTasks(h: Hub, id: Id)
    requires TasksOk(h) && h.holder.Free? && h.docker && id !in LiveIds(h) && id in h.senders
    requires ChannelsOk(h) && FlightsOk(h)
    ensures TasksOk(EnsureReader(h, id, h.senders[id])) && TasksGrow(h, EnsureReader(h, id, h.senders[id]))
    ensures LiveIds(EnsureReader(h, id, h.senders[id])) <= LiveIds(h) + {id}
  {
    var t := EnsureReader(h, id, h.senders[id]);
    forall r | 0 <= r < |h.tasks| ensures TaskOk(t, r) { OldTaskStays(h, id, r); }
    NoFutureFlights(h);
    assert TaskOk(t, |h.tasks|) by { hide TasksOk, FlightsOk; }
    forall other | other in t.lc.readers ensures ReaderOk(t, other) {
      if other != id { OneReader(h, other); }
    }
  }

  lemma OldTaskStays(h: Hub, id: Id, r: nat)
    requires TasksOk(h) && h.holder.Free? && h.docker && id !in LiveIds(h) && id in h.senders && r < |h.tasks|
    ensures TaskOk(EnsureReader(h, id, h.senders[id]), r)
  {
    OneTask(h, r);
    hide TasksOk;
  }

  /** Starting a reader changes nothing that viewers or the history can see. */
  lemma ReaderChangeKeeps(h: Hub, t: Hub)
    requires Inv(h) && t == h.(lc := h.lc.(readers := t.lc.readers), tasks := t.tasks)
    requires TasksOk(t) && CapacityOk(t) && TasksGrow(h, t) && h.holder.Free?
    requires t.lc.readers.Keys <= h.lc.desired
    ensures Inv(t)
  {
    hide TasksOk, ChannelsOk, ViewersOk, ReceivedOk, FlightsOk, S.StreamOk, CompleteOk, CapacityOk, TasksGrow;
    ChannelsFrame(h, t);
    ViewersFrame(h, t);
    ReceivedFrame(h, t);
    FlightsNoSupervisor(h);
    FlightsFrame(h, t);
    CompleteFrame(h, t);
  }

  lemma OneReader(h: Hub, id: Id)
    requires TasksOk(h) && id in h.lc.readers
    ensures ReaderOk(h, id)
  {}

  lemma EnsureReaderKeeps(h: Hub, id: Id)
    requires Inv(h) && h.holder.Free? && id in h.senders && id in h.lc.desired
    requires h.docker ==> |LiveIds(h) - {id}| < h.capacity
    ensures Inv(EnsureReader(h, id, h.senders[id]))
  {
    hide ChannelsOk, ViewersOk, ReceivedOk, FlightsOk, S.StreamOk, CompleteOk;
    var t := EnsureReader(h, id, h.senders[id]);
    if id !in LiveIds(h) {
      if h.docker {
        EnsureReaderTasks(h, id);
        assert CapacityOk(t) by { StartedWithinCapacity(h, t, id); }
        hide TasksOk, CapacityOk, LiveIds;
        assert t.lc.readers.Keys <= h.lc.desired;
        ReaderChangeKeeps(h, t);
      } else {
        if other :| other in h.lc.readers {
          OneReader(h, other);
          assert false;
        }
        assert t == h;
      }
    }
  }

  lemma StartedWithinCapacity(h: Hub, t: Hub, id: Id)
    requires CapacityOk(h) && h.docker && !t.holder.Subscribing? && t.docker && t.capacity == h.capacity
    requires LiveIds(t) <= LiveIds(h) + {id} && |LiveIds(h) - {id}| < h.capacity
    ensures CapacityOk(t)
  {
    SubsetCardinality(LiveIds(t) - {id}, LiveIds(h) - {id});
    SubsetCardinality(LiveIds(t), (LiveIds(t) - {id}) + {id});
  }

  lemma SubscriberDesired(h: Hub, id: Id)
    requires Inv(h) && h.holder == Subscribing(id)
    ensures id in h.lc.desired
  {}

  lemma InstallKeeps(h: Hub, id: Id)
    requires Inv(h) && h.holder == Subscribing(id)
    ensures Inv(InstallFor(h, id))
  {
    hide Inv, LiveIds, EnsureReader;
    OpenChannelKeeps(h, id);
    assert OpenChannel(h, id).lc == h.lc && id in OpenChannel(h, id).senders && id in h.lc.desired by { SubscriberDesired(h, id); }
    EnsureReaderKeeps(OpenChannel(h, id), id);
  }

  // ---- retiring an idle reader ----------------------------------------------------------------------------------

  /** The idle reader's viewers came back: it hands over to a successor. */
  ghost predicate Restarts(h: Hub, r: nat) {
    && r < |h.tasks| && h.tasks[r].pc == Retiring && h.holder.Free?
    && h.tasks[r].id in h.lc.readers && h.lc.readers[h.tasks[r].id] == r
    && HasReceivers(h, h.tasks[r].channel) && h.tasks[r].id in h.lc.desired
  }

  lemma RestartTasks(h: Hub, r: nat)
    requires TasksOk(h) && FlightsOk(h) && Restarts(h, r)
    ensures TasksOk(Retire(h, r)) && TasksGrow(h, Retire(h, r))
  {
    hide HasReceivers;
    var t := Retire(h, r);
    NoFutureFlights(h);
    hide FlightsOk;
    assert TaskOk(h, r) && ReaderOk(h, h.tasks[r].id);
    forall k | 0 <= k < |h.tasks| ensures TaskOk(t, k) { assert TaskOk(h, k); }
    assert TaskOk(t, |h.tasks|);
    forall other | other in t.lc.readers ensures ReaderOk(t, other) { assert ReaderOk(h, other); }
  }

  lemma RestartCapacity(h: Hub, r: nat)
    requires TasksOk(h) && CapacityOk(h) && Restarts(h, r)
    ensures CapacityOk(Retire(h, r))
  {
    hide HasReceivers, TasksGrow;
    var t := Retire(h, r);
    forall other | other in LiveIds(t) ensures other in LiveIds(h) {
      if other in h.lc.readers { OneReader(h, other); }
    }
    SubsetCardinality(LiveIds(t), LiveIds(h));
  }

  lemma LeaveTasks(h: Hub, r: nat)
    requires TasksOk(h) && CapacityOk(h) && HolderOk(h) && h.holder.Free? && r < |h.tasks| && h.tasks[r].pc == Retiring
    requires h.tasks[r].id in h.lc.readers && h.lc.readers[h.tasks[r].id] == r
    requires !(HasReceivers(h, h.tasks[r].channel) && h.tasks[r].id in h.lc.desired)
    ensures TasksOk(Retire(h, r)) && TasksGrow(h, Retire(h, r)) && HolderOk(Retire(h, r))
    ensures LiveIds(Retire(h, r)) <= LiveIds(h)
  {
    var t := Retire(h, r);
    assert TaskOk(h, r) && ReaderOk(h, h.tasks[r].id);
    forall k | 0 <= k < |h.tasks| ensures TaskOk(t, k) { assert TaskOk(h, k); }
    forall other | other in t.lc.readers ensures ReaderOk(t, other) { assert ReaderOk(h, other); }
  }

  lemma BeginRetireKeeps(h: Hub, r: nat)
    requires Inv(h) && r < |h.tasks| && h.tasks[r].pc == Retiring && h.holder.Free?
    ensures Inv(Retire(h, r))
  {
    hide TasksOk, ChannelsOk, ViewersOk, ReceivedOk, FlightsOk, S.StreamOk, CompleteOk, CapacityOk, LiveIds, TasksGrow, HasReceivers;
    var t, task := Retire(h, r), h.tasks[r];
    if !(task.id in h.lc.readers && h.lc.readers[task.id] == r) {
      ReaderMovesKeeps(h, r, Finished);
    } else if HasReceivers(h, task.channel) && task.id in h.lc.desired {
      RestartTasks(h, r);
      RestartCapacity(h, r);
      ReaderChangeKeeps(h, t);
    } else {
      LeaveTasks(h, r);
      CapacityFrame(h, t);
      FlightsNoSupervisor(h);
      hide HolderOk;
      ChannelsFrame(h, t);
      ViewersFrame(h, t);
      ReceivedFrame(h, t);
      FlightsFrame(h, t);
      CompleteFrame(h, t);
    }
  }

  lemma RetireSendersKeeps(h: Hub)
    requires Inv(h) && h.holder.RetiringAt? && !h.holder.atHistory && h.holder.task < |h.tasks|
    ensures Inv(RetireSendersOf(h, h.holder.task))
  {
    hide TasksOk, ChannelsOk, ViewersOk, ReceivedOk, FlightsOk, S.StreamOk, CompleteOk, CapacityOk, LiveIds;
    var t := RetireSendersOf(h, h.holder.task);
    FlightsNoSupervisor(h);
    assert HolderOk(t);
    TasksFrame(h, t);
    SameLive(h, t);
    CapacityFrame(h, t);
    ChannelsFrame(h, t);
    ViewersFrame(h, t);
    ReceivedFrame(h, t);
    FlightsFrame(h, t);
    CompleteFrame(h, t);
  }

  lemma LeftTasks(h: Hub, t: Hub, r: nat)
    requires TasksOk(h) && h.holder == RetiringAt(r, true) && r < |h.tasks|
    requires t.tasks == At(h, r, Finished).tasks && t.lc == h.lc && t.holder == Free && t.senders == h.senders
    requires t.channels == h.channels && t.epochs == h.epochs && t.stream.flights == h.stream.flights
    ensures TasksOk(t) && TasksGrow(h, t) && LiveIds(t) <= LiveIds(h)
  {
    assert TaskOk(h, r);
    forall k | 0 <= k < |t.tasks| ensures TaskOk(t, k) { assert TaskOk(h, k); }
    forall id | id in t.lc.readers ensures ReaderOk(t, id) { assert ReaderOk(h, id); }
  }

  lemma RetireHistoryKeeps(h: Hub)
    requires Inv(h) && h.holder.RetiringAt? && h.holder.atHistory && h.holder.task < |h.tasks|
    ensures Inv(At(h, h.holder.task, Finished).(
      stream := S.DropHistories(h.stream, {h.tasks[h.holder.task].id}), holder := Free))
  {
    hide TasksOk, ChannelsOk, ViewersOk, ReceivedOk, FlightsOk, S.StreamOk, CompleteOk, CapacityOk, LiveIds, TasksGrow;
    var r := h.holder.task;
    var t := At(h, r, Finished).(stream := S.DropHistories(h.stream, {h.tasks[r].id}), holder := Free);
    LeftTasks(h, t, r);
    S.DropHistoriesKeeps(h.stream, {h.tasks[r].id});
    FlightsNoSupervisor(h);
    CapacityFrame(h, t);
    ChannelsFrame(h, t);
    ViewersFrame(h, t);
    ReceivedFrame(h, t);
    FlightsFrame(h, t);
    CompleteAfterDrop(h, t, {h.tasks[r].id});
  }

  // ---- every run ---------------------------------------------------------------------------------------------

  lemma InventoryStepKeeps(h: Hub, a: Action)
    requires Inv(h) && Enabled(h, a)
    requires a.TrackServer? || a.SynchronizeServers? || a.BeginRemove? || a.BeginSubscribe? || a.InstallReceiver?
    ensures Inv(Step(h, a))
  {
    assert LifecycleOk(h.lc);
    match a
    case TrackServer(id) =>
      hide Inv;
      TrackKeeps(h, id);
    case SynchronizeServers(ids) =>
      hide Inv;
      SectionsKeepLifecycleOk(h.lc, Synced(ids));
      assert h.lc.readers - {} == h.lc.readers;
      assert Withdraws(h, Synchronize(h.lc, ids), Withdrawn(h.lc, ids));
      WithdrawKeeps(h, Synchronize(h.lc, ids), Withdrawn(h.lc, ids));
    case BeginRemove(id) =>
      hide Inv;
      SectionsKeepLifecycleOk(h.lc, Dropped(id));
      WithdrawKeeps(h, Remove(h.lc, id), {id});
    case BeginSubscribe(id) =>
      hide Inv;
      BeginSubscribeKeeps(h, id);
    case InstallReceiver =>
      hide Inv;
      InstallKeeps(h, h.holder.id);
  }

  lemma LockedStepKeeps(h: Hub, a: Action)
    requires Inv(h) && Enabled(h, a)
    requires a.PurgeSenders? || a.PurgeHistory? || a.CancelPurge? || a.BeginPublish? || a.PublishPush? || a.PublishSend? || a.CancelSubscribe?
      || a.BeginRetire? || a.RetireSenders? || a.RetireHistory?
    ensures Inv(Step(h, a))
  {
    assert !h.holder.PublishSending? ==> SUPERVISOR !in h.stream.flights by {
      if !h.holder.PublishSending? { FlightsNoSupervisor(h); }
    }
    hide Inv;
    match a
    case PurgeSenders => PurgeSendersKeeps(h);
    case PurgeHistory => PurgeHistoryKeeps(h);
    case CancelPurge => CancelPurgeKeeps(h);
    case BeginPublish(id, line) => HandOverKeeps(h, Step(h, a));
    case PublishPush(after) => PublishPushKeeps(h, after);
    case PublishSend => PublishSendKeeps(h);
    case CancelSubscribe => HandOverKeeps(h, Step(h, a));
    case BeginRetire(r) => BeginRetireKeeps(h, r);
    case RetireSenders => RetireSendersKeeps(h);
    case RetireHistory => RetireHistoryKeeps(h);
  }

  lemma ViewerStepKeeps(h: Hub, a: Action)
    requires Inv(h) && Enabled(h, a) && (a.TakeSnapshot? || a.LeaveViewer?)
    ensures Inv(Step(h, a))
  {
    assert S.StreamOk(h.stream);
    hide Inv, S.StreamOk;
    match a
    case TakeSnapshot(v) =>
      S.SnapshotKeeps(h.stream, v);
      ViewerMovesKeeps(h, v, S.Snapshot(h.stream, v).viewers[v]);
    case LeaveViewer(v) =>
      S.LeaveKeeps(h.stream, v);
      ViewerMovesKeeps(h, v, S.Leave(h.stream, v).viewers[v]);
  }

  lemma ReaderStepKeeps(h: Hub, a: Action)
    requires Inv(h) && Enabled(h, a)
    requires a.ReaderPrepare? || a.ReaderPush? || a.ReaderSend? || a.ReaderStop? || a.ReaderIdle?
    ensures Inv(Step(h, a))
  {
    hide Inv, At, Deliver, S.Push, S.Abandon, PushEffect;
    match a
    case ReaderPrepare(r, line) => ReaderMovesKeeps(h, r, Prepared(line));
    case ReaderPush(r, after) =>
      if h.tasks[r].active { ReaderPushKeeps(h, r, after); } else { ReaderMovesKeeps(h, r, Finished); }
    case ReaderSend(r) =>
      if h.tasks[r].active { ReaderSendKeeps(h, r); } else { ReaderStopKeeps(h, r); }
    case ReaderStop(r) => ReaderStopKeeps(h, r);
    case ReaderIdle(r) => ReaderMovesKeeps(h, r, Retiring);
  }

  lemma StepKeepsInv(h: Hub, a: Action)
    requires Inv(h) && Enabled(h, a)
    ensures Inv(Step(h, a))
  {
    hide Inv, Enabled, Step;
    if a.TrackServer? || a.SynchronizeServers? || a.BeginRemove? || a.BeginSubscribe? || a.InstallReceiver? {
      InventoryStepKeeps(h, a);
    } else if a.TakeSnapshot? || a.LeaveViewer? {
      ViewerStepKeeps(h, a);
    } else if a.ReaderPrepare? || a.ReaderPush? || a.ReaderSend? || a.ReaderStop? || a.ReaderIdle? {
      ReaderStepKeeps(h, a);
    } else {
      LockedStepKeeps(h, a);
    }
  }

  /** Enabled sections, one after the other. */
  ghost predicate Connects(states: seq<Hub>, actions: seq<Action>) {
    && |states| == |actions| + 1
    && forall i :: 0 <= i < |actions| ==> Enabled(states[i], actions[i]) && states[i + 1] == Step(states[i], actions[i])
  }

  /** A run: any number of enabled sections, from an empty hub. */
  ghost predicate IsRun(states: seq<Hub>, actions: seq<Action>) {
    Connects(states, actions) && exists docker, capacity :: states[0] == Initial(docker, capacity)
  }

  lemma {:induction false} RunKeepsInv(states: seq<Hub>, actions: seq<Action>, i: nat)
    requires IsRun(states, actions) && i < |states|
    ensures Inv(states[i])
  {
    hide Inv, Enabled, Step;
    if i == 0 {
      var docker, capacity :| states[0] == Initial(docker, capacity);
      InitialInv(docker, capacity);
    } else {
      RunKeepsInv(states, actions, i - 1);
      StepKeepsInv(states[i - 1], actions[i - 1]);
    }
  }

  /** Viewers keep their server, and histories are only ever dropped. */
  ghost predicate StreamAdvances(s: S.Stream, t: S.Stream) {
    && |s.viewers| <= |t.viewers|
    && (forall v :: 0 <= v < |s.viewers| ==>
      t.viewers[v].id == s.viewers[v].id && t.viewers[v].incarnation == s.viewers[v].incarnation)
    && (forall v :: |s.viewers| <= v < |t.viewers| ==> S.Drops(s, t.viewers[v].id) <= t.viewers[v].incarnation)
    && forall id :: S.Drops(s, id) <= S.Drops(t, id)
  }

  /** Generations only advance, and whoever subscribes now belongs to the present one. */
  ghost predicate Advances(h: Hub, t: Hub) {
    && TasksGrow(h, t) && StreamAdvances(h.stream, t.stream)
    && h.joined <= t.joined
    && (forall id :: Epoch(h, id) <= Epoch(t, id))
    && forall v :: |h.stream.viewers| <= v < |t.stream.viewers| && v < |t.joined| ==>
      Epoch(h, t.stream.viewers[v].id) <= t.joined[v]
  }

  lemma StreamStepAdvances(h: Hub, a: Action)
    requires Enabled(h, a)
    ensures StreamAdvances(h.stream, Step(h, a).stream)
    ensures !a.InstallReceiver? ==> |Step(h, a).stream.viewers| == |h.stream.viewers|
  {
    hide PushEffect, HasReceivers, LiveIds, CapacityAllows, StopReaders, S.Push, Deliver;
    if a.PublishPush? || a.PublishSend? || a.ReaderPush? || a.ReaderSend? {
      PublishingAdvances(h, a);
    } else if a.TakeSnapshot? || a.LeaveViewer? || a.InstallReceiver? {
      ViewingAdvances(h, a);
    } else {
      hide S.Install, S.Snapshot, S.Leave, EnsureReader;
    }
  }

  lemma ViewingAdvances(h: Hub, a: Action)
    requires Enabled(h, a) && (a.TakeSnapshot? || a.LeaveViewer? || a.InstallReceiver?)
    ensures StreamAdvances(h.stream, Step(h, a).stream)
    ensures !a.InstallReceiver? ==> |Step(h, a).stream.viewers| == |h.stream.viewers|
  {
    hide LiveIds, StopReaders;
  }

  lemma PublishingAdvances(h: Hub, a: Action)
    requires Enabled(h, a) && (a.PublishPush? || a.PublishSend? || a.ReaderPush? || a.ReaderSend?)
    ensures StreamAdvances(h.stream, Step(h, a).stream)
    ensures |Step(h, a).stream.viewers| == |h.stream.viewers|
  {
    hide PushEffect;
  }

  lemma StepAdvances(h: Hub, a: Action)
    requires Enabled(h, a) && |h.joined| == |h.stream.viewers|
    ensures Advances(h, Step(h, a))
  {
    StreamStepAdvances(h, a);
    if a.BeginRetire? || a.InstallReceiver? || a.SynchronizeServers? || a.BeginRemove? {
      hide Enabled, Step, Advances;
      ManySidedStepAdvances(h, a);
    } else {
      hide Enabled, Step, Advances, StreamAdvances;
      StepKeepsGenerations(h, a);
      SameGeneration(h, Step(h, a));
    }
  }

  lemma StepKeepsGenerations(h: Hub, a: Action)
    requires Enabled(h, a) && !a.BeginRetire? && !a.InstallReceiver? && !a.SynchronizeServers? && !a.BeginRemove?
    ensures Step(h, a).joined == h.joined && Step(h, a).epochs == h.epochs && TasksGrow(h, Step(h, a))
  {
    hide S.Push, S.Snapshot, S.Leave, S.DropHistories, S.Abandon, Deliver, PushEffect, HasReceivers, LiveIds,
         CapacityAllows, Track, ValidateSubscription, PublishAdmitted, S.LogOk, Epoch;
    if !MovesTask(a) {
      assert Step(h, a).tasks == h.tasks;
    }
  }

  lemma SameGeneration(h: Hub, t: Hub)
    requires TasksGrow(h, t) && t.joined == h.joined && t.epochs == h.epochs && |h.joined| == |h.stream.viewers|
    requires StreamAdvances(h.stream, t.stream) && |t.stream.viewers| == |h.stream.viewers|
    ensures Advances(h, t)
  {}

  lemma ManySidedStepAdvances(h: Hub, a: Action)
    requires Enabled(h, a) && (a.BeginRetire? || a.InstallReceiver? || a.SynchronizeServers? || a.BeginRemove?)
    requires |h.joined| == |h.stream.viewers|
    ensures Advances(h, Step(h, a))
  {
    hide Advances, Withdraw, InstallFor, Retire;
    match a
    case BeginRetire(r) => RetireAdvances(h, r);
    case InstallReceiver => InstallAdvances(h, h.holder.id);
    case SynchronizeServers(ids) => WithdrawAdvances(h, Synchronize(h.lc, ids), Withdrawn(h.lc, ids));
    case BeginRemove(id) => WithdrawAdvances(h, Remove(h.lc, id), {id});
  }

  lemma WithdrawAdvances(h: Hub, lc: Lifecycle, ids: set<Id>)
    ensures Advances(h, Withdraw(h, lc, ids))
  {
  }

  lemma InstallAdvances(h: Hub, id: Id)
    requires |h.joined| == |h.stream.viewers|
    ensures Advances(h, InstallFor(h, id))
  {
    hide HasReceivers, LiveIds;
  }

  lemma RetireAdvances(h: Hub, r: nat)
    requires r < |h.tasks|
    ensures Advances(h, Retire(h, r))
  {
    hide HasReceivers;
  }

  lemma {:induction false} RunAdvances(states: seq<Hub>, actions: seq<Action>, i: nat, j: nat)
    requires IsRun(states, actions) && i <= j < |states|
    ensures Advances(states[i], states[j])
    decreases j
  {
    hide Enabled, Step, Inv, Advances;
    RunKeepsInv(states, actions, j);
    if i < j {
      RunAdvances(states, actions, i, j - 1);
      RunKeepsInv(states, actions, j - 1);
      InvJoined(states[j - 1]);
      StepAdvances(states[j - 1], actions[j - 1]);
      AdvancesTransitively(states[i], states[j - 1], states[j]);
    } else {
      AdvancesItself(states[i]);
    }
  }

  lemma InvJoined(h: Hub)
    requires Inv(h)
    ensures |h.joined| == |h.stream.viewers|
  {}

  lemma AdvancesItself(h: Hub)
    ensures Advances(h, h)
  {}

  lemma AdvancesTransitively(h: Hub, t: Hub, u: Hub)
    requires Advances(h, t) && Advances(t, u) && |t.joined| == |t.stream.viewers|
    ensures Advances(h, u)
  {}

  /** The section with which a removal, or the bootstrap snapshot, withdraws an id. */
  predicate WithdrawsId(h: Hub, a: Action, id: Id) {
    match a
    case BeginRemove(removed) => removed == id
    case SynchronizeServers(ids) => id in Withdrawn(h.lc, ids)
    case _ => false
  }

  /** A reader that can no longer publish. */
  predicate Silent(h: Hub, r: nat) { r < |h.tasks| && (!h.tasks[r].active || h.tasks[r].pc == Finished) }

  /** What `t` holds from author `r` was there in `s`, and has not been dropped since. */
  ghost predicate OldLines(s: S.Stream, t: S.Stream, id: Id, r: nat) {
    forall n :: 0 <= n < S.Pushed(t, id) && LogOf(t.logs, id).items[n].author == r ==>
      n < S.Pushed(s, id) && S.Drops(t, id) == S.Drops(s, id)
  }

  lemma WithdrawalSilences(h: Hub, a: Action, id: Id, r: nat)
    requires TasksOk(h) && Enabled(h, a) && WithdrawsId(h, a, id) && r < |h.tasks| && h.tasks[r].id == id
    ensures Silent(Step(h, a), r) && Step(h, a).stream == h.stream && Purges(Step(h, a), id)
    ensures Epoch(h, id) < Epoch(Step(h, a), id)
  {
    OneTask(h, r);
  }

  predicate MovesTask(a: Action) {
    a.ReaderPrepare? || a.ReaderPush? || a.ReaderSend? || a.ReaderStop? || a.ReaderIdle? || a.BeginRetire? || a.RetireHistory?
  }

  lemma TaskStaysSilent(h: Hub, a: Action, r: nat)
    requires Enabled(h, a) && Silent(h, r) && MovesTask(a)
    ensures Silent(Step(h, a), r)
  {
    hide PushEffect, HasReceivers, Deliver, S.Push, S.DropHistories, S.Abandon;
  }

  lemma StaysSilent(h: Hub, a: Action, r: nat)
    requires Enabled(h, a) && Silent(h, r)
    ensures Silent(Step(h, a), r)
  {
    if MovesTask(a) {
      hide Enabled, Step, Silent, MovesTask;
      TaskStaysSilent(h, a, r);
    } else {
      hide PushEffect, HasReceivers, LiveIds, CapacityAllows, Track, Remove, Synchronize, ValidateSubscription,
           Withdrawn, PublishAdmitted, At, Retire, Deliver, S.Push, S.Install, S.Snapshot, S.Leave, S.DropHistories;
    }
  }

  lemma PushAddsOwnLine(s: S.Stream, t: S.Stream, slot: int, pushed: Id, record: S.Record, after: map<Id, Log<S.Record>>,
                        id: Id, r: nat)
    requires PushEffect(t.logs, after, pushed, record) && record.author != r && OldLines(s, t, id, r)
    ensures OldLines(s, S.Push(t, slot, pushed, record, after), id, r)
  {
    var u := S.Push(t, slot, pushed, record, after);
    forall n | 0 <= n < S.Pushed(u, id) && LogOf(u.logs, id).items[n].author == r
      ensures n < S.Pushed(s, id) && S.Drops(u, id) == S.Drops(s, id)
    {
      assert LogOf(t.logs, id).items[n].author == r;
    }
  }

  lemma DroppingAddsNoLine(s: S.Stream, ids: set<Id>, id: Id)
    ensures var t := S.DropHistories(s, ids);
      S.Pushed(t, id) == 0 || (LogOf(t.logs, id) == LogOf(s.logs, id) && S.Drops(t, id) == S.Drops(s, id))
  {}

  /** Every other section leaves a server's lines alone, or drops them all. */
  lemma OnlyPushesAddLines(h: Hub, a: Action, id: Id)
    requires Enabled(h, a) && !a.PublishPush? && !(a.ReaderPush? && h.tasks[a.task].active)
    ensures var s, t := h.stream, Step(h, a).stream;
      S.Pushed(t, id) == 0 || (LogOf(t.logs, id) == LogOf(s.logs, id) && S.Drops(t, id) == S.Drops(s, id))
  {
    hide HasReceivers, LiveIds, CapacityAllows, PushEffect, S.Push, StopReaders, Track, Remove, Synchronize,
         ValidateSubscription, Withdrawn, PublishAdmitted, S.DropHistories, S.Bump;
    if a.PurgeHistory? {
      DroppingAddsNoLine(h.stream, h.holder.ids, id);
    } else if a.RetireHistory? {
      DroppingAddsNoLine(h.stream, {h.tasks[h.holder.task].id}, id);
    } else {
      assert Step(h, a).stream.logs == h.stream.logs && Step(h, a).stream.drops == h.stream.drops;
    }
  }

  /** Only `r` itself logs lines of `r`. */
  lemma SilenceAddsNoLine(h: Hub, a: Action, s: S.Stream, id: Id, r: nat)
    requires Enabled(h, a) && Silent(h, r) && OldLines(s, h.stream, id, r)
    ensures OldLines(s, Step(h, a).stream, id, r)
  {
    hide HasReceivers, LiveIds, CapacityAllows, PushEffect, S.Push, StopReaders;
    if a.PublishPush? {
      PushAddsOwnLine(s, h.stream, SUPERVISOR, h.holder.id, S.Record(h.holder.line, SUPERVISOR, Epoch(h, h.holder.id)), a.after, id, r);
    } else if a.ReaderPush? && h.tasks[a.task].active {
      PushAddsOwnLine(s, h.stream, a.task, h.tasks[a.task].id,
        S.Record(h.tasks[a.task].pc.line, a.task, h.tasks[a.task].born), a.after, id, r);
    } else {
      OnlyPushesAddLines(h, a, id);
    }
  }

  /** Whoever subscribed after `s` to `id` and is replayed a line of `r` took its
      snapshot of the incarnation that was there in `s`, and the line with it. */
  ghost predicate OldReplays(s: S.Stream, t: S.Stream, id: Id, r: nat) {
    forall v, n :: |s.viewers| <= v < |t.viewers| && t.viewers[v].id == id && Replays(t.viewers[v], n, r) ==>
      t.viewers[v].phase.incarnation == S.Drops(s, id) && t.viewers[v].phase.from + n < S.Pushed(s, id)
  }

  predicate Replays(viewer: S.Viewer, n: int, r: nat) {
    viewer.phase.Streaming? && 0 <= n < |viewer.phase.replayed| && viewer.phase.replayed[n].author == r
  }

  /** Subscribing, leaving and receiving leave the replays alone. */
  ghost predicate SameReplays(t: S.Stream, u: S.Stream) {
    && |t.viewers| <= |u.viewers|
    && (forall v :: 0 <= v < |t.viewers| ==> u.viewers[v].id == t.viewers[v].id && u.viewers[v].phase == t.viewers[v].phase)
    && (forall v :: |t.viewers| <= v < |u.viewers| ==> u.viewers[v].phase.Attaching?)
  }

  lemma OnlySnapshotsReplay(h: Hub, a: Action)
    requires Enabled(h, a) && !a.TakeSnapshot?
    ensures SameReplays(h.stream, Step(h, a).stream)
  {
    hide PushEffect, HasReceivers, LiveIds, CapacityAllows, StopReaders, Track, Remove, Synchronize, ValidateSubscription,
         Withdrawn, PublishAdmitted, S.Push, Deliver, SameReplays;
    if a.PublishPush? || a.PublishSend? || a.ReaderPush? || a.ReaderSend? {
      PublishingReplaysNothing(h, a);
    } else if a.InstallReceiver? || a.LeaveViewer? {
      ViewingReplaysNothing(h, a);
    } else {
      StreamReplaysNothing(h, a);
    }
  }

  lemma PublishingReplaysNothing(h: Hub, a: Action)
    requires Enabled(h, a) && (a.PublishPush? || a.PublishSend? || a.ReaderPush? || a.ReaderSend?)
    ensures SameReplays(h.stream, Step(h, a).stream)
  {
    hide PushEffect;
  }

  lemma ViewingReplaysNothing(h: Hub, a: Action)
    requires Enabled(h, a) && (a.InstallReceiver? || a.LeaveViewer?)
    ensures SameReplays(h.stream, Step(h, a).stream)
  {
    hide LiveIds, StopReaders;
  }

  lemma StreamReplaysNothing(h: Hub, a: Action)
    requires Enabled(h, a) && !a.PublishPush? && !a.PublishSend? && !a.ReaderPush? && !a.ReaderSend?
    requires !a.TakeSnapshot? && !a.InstallReceiver? && !a.LeaveViewer?
    ensures SameReplays(h.stream, Step(h, a).stream)
  {
    hide PushEffect, HasReceivers, LiveIds, CapacityAllows, StopReaders, Track, Remove, Synchronize, ValidateSubscription,
         Withdrawn, PublishAdmitted, S.Push, Deliver, S.Install, S.Snapshot, S.Leave, SameReplays;
    assert Step(h, a).stream.viewers == h.stream.viewers;
    SameViewers(h.stream, Step(h, a).stream);
  }

  lemma SameViewers(t: S.Stream, u: S.Stream)
    requires u.viewers == t.viewers
    ensures SameReplays(t, u)
  {}

  lemma SnapshotReplaysOldLines(s: S.Stream, t: S.Stream, v: nat, id: Id, r: nat)
    requires OldLines(s, t, id, r) && OldReplays(s, t, id, r)
    requires v < |t.viewers| && S.LogOk(t, t.viewers[v].id)
    ensures OldReplays(s, S.Snapshot(t, v), id, r)
  {
    var u := S.Snapshot(t, v);
    forall w, n | |s.viewers| <= w < |u.viewers| && u.viewers[w].id == id && Replays(u.viewers[w], n, r)
      ensures u.viewers[w].phase.incarnation == S.Drops(s, id) && u.viewers[w].phase.from + n < S.Pushed(s, id)
    {
      if w == v {
        var log := LogOf(t.logs, id);
        assert u.viewers[w].phase.replayed[n] == log.items[log.trimmed + n];
      } else {
        assert u.viewers[w] == t.viewers[w] && Replays(t.viewers[w], n, r);
      }
    }
  }

  lemma SameReplaysStay(s: S.Stream, t: S.Stream, u: S.Stream, id: Id, r: nat)
    requires OldReplays(s, t, id, r) && SameReplays(t, u)
    ensures OldReplays(s, u, id, r)
  {
    forall v, n | |s.viewers| <= v < |u.viewers| && u.viewers[v].id == id && Replays(u.viewers[v], n, r)
      ensures u.viewers[v].phase.incarnation == S.Drops(s, id) && u.viewers[v].phase.from + n < S.Pushed(s, id)
    {
      assert Replays(t.viewers[v], n, r);
    }
  }

  lemma StepKeepsOldReplays(h: Hub, a: Action, s: S.Stream, id: Id, r: nat)
    requires Enabled(h, a) && OldLines(s, h.stream, id, r) && OldReplays(s, h.stream, id, r) && |s.viewers| <= |h.stream.viewers|
    ensures OldReplays(s, Step(h, a).stream, id, r) && |s.viewers| <= |Step(h, a).stream.viewers|
  {
    if a.TakeSnapshot? {
      hide OldLines, OldReplays, S.LogOk;
      SnapshotReplaysOldLines(s, h.stream, a.viewer, id, r);
    } else {
      hide Enabled, Step, OldLines, OldReplays;
      OnlySnapshotsReplay(h, a);
      SameReplaysStay(s, h.stream, Step(h, a).stream, id, r);
    }
  }

  lemma {:induction false} SilentSinceWithdrawal(
      states: seq<Hub>, actions: seq<Action>, i: nat, j: nat, id: Id, r: nat)
    requires IsRun(states, actions) && i < j < |states|
    requires WithdrawsId(states[i], actions[i], id)
    requires r < |states[i].tasks| && states[i].tasks[r].id == id
    ensures Silent(states[j], r) && OldLines(states[i].stream, states[j].stream, id, r)
    ensures OldReplays(states[i].stream, states[j].stream, id, r)
    ensures |states[i].stream.viewers| <= |states[j].stream.viewers|
    decreases j
  {
    hide Step, Enabled, Silent, OldLines, OldReplays;
    if j == i + 1 {
      assert TasksOk(states[i]) by { RunKeepsInv(states, actions, i); }
      hide TasksOk;
      WithdrawalSilences(states[i], actions[i], id, r);
      OldLinesItself(states[i].stream, id, r);
    } else {
      SilentSinceWithdrawal(states, actions, i, j - 1, id, r);
      StaysSilent(states[j - 1], actions[j - 1], r);
      SilenceAddsNoLine(states[j - 1], actions[j - 1], states[i].stream, id, r);
      StepKeepsOldReplays(states[j - 1], actions[j - 1], states[i].stream, id, r);
    }
  }

  lemma OldLinesItself(s: S.Stream, id: Id, r: nat)
    ensures OldLines(s, s, id, r) && OldReplays(s, s, id, r)
  {}

  /** Generation isolation: in every interleaving, a reader started before its
      server was withdrawn has no line in the server's history that was not
      there before the withdrawal, and none at all once a purge of that server
      has reached the history; no viewer that subscribes after the withdrawal
      ever receives a line of it, and if one is replayed a line of it, then out
      of the history as it stood at the withdrawal. */
  lemma GenerationIsolation(states: seq<Hub>, actions: seq<Action>, i: nat, j: nat, id: Id, r: nat)
    requires IsRun(states, actions) && i < j < |states|
    requires WithdrawsId(states[i], actions[i], id)
    requires r < |states[i].tasks| && states[i].tasks[r].id == id
    ensures OldLines(states[i].stream, states[j].stream, id, r)
    ensures OldReplays(states[i].stream, states[j].stream, id, r)
    ensures (exists k :: i < k < j && PurgesHistory(states[k], actions[k], id)) ==>
      forall n :: 0 <= n < S.Pushed(states[j].stream, id) ==> LogOf(states[j].stream.logs, id).items[n].author != r
    ensures forall v, n | |states[i].stream.viewers| <= v < |states[j].stream.viewers|
      && 0 <= n < |states[j].stream.viewers[v].queue| :: states[j].stream.viewers[v].queue[n].record.author != r
  {
    hide Step, Enabled, WithdrawsId, Purges;
    var h, t := states[i + 1], states[j];
    SilentSinceWithdrawal(states, actions, i, j, id, r);
    if k :| i < k < j && PurgesHistory(states[k], actions[k], id) {
      PurgeEndsIncarnation(states[k], actions[k], id);
      RunAdvances(states, actions, i, k);
      RunAdvances(states, actions, k + 1, j);
    }
    assert Inv(states[i]) && Inv(t) by { RunKeepsInv(states, actions, i); RunKeepsInv(states, actions, j); }
    hide TasksOk, CapacityOk, HolderOk, ChannelsOk, FlightsOk, S.StreamOk, CompleteOk, ViewersOk, ReceivedOk, LifecycleOk;
    WithdrawalSilences(states[i], actions[i], id, r);
    RunAdvances(states, actions, i, j);
    RunAdvances(states, actions, i + 1, j);
    OneTask(states[i], r);
    hide IsRun, PurgesHistory;
    forall v, n | |h.stream.viewers| <= v < |t.stream.viewers| && 0 <= n < |t.stream.viewers[v].queue|
      ensures t.stream.viewers[v].queue[n].record.author != r
    {
      OneReceived(t, v, n);
    }
  }

  /** Once a purge has reached the history, whoever subscribes after it is never
      shown a line of a reader from before the withdrawal, replayed or live. */
  lemma PurgedReaderIsNeverShown(states: seq<Hub>, actions: seq<Action>, i: nat, k: nat, j: nat, id: Id, r: nat, v: nat)
    requires IsRun(states, actions) && i < k < j < |states|
    requires WithdrawsId(states[i], actions[i], id) && r < |states[i].tasks| && states[i].tasks[r].id == id
    requires PurgesHistory(states[k], actions[k], id)
    requires |states[k].stream.viewers| <= v < |states[j].stream.viewers|
    requires states[j].stream.viewers[v].id == id && states[j].stream.viewers[v].phase.Streaming?
    ensures var viewer := states[j].stream.viewers[v];
      && viewer.phase.from + |viewer.phase.replayed| == viewer.phase.through
      && forall item :: item in S.Shown(viewer) ==> item.record.author != r
  {
    hide Step, Enabled, WithdrawsId, PurgesHistory, OldLines, S.Shown;
    GenerationIsolation(states, actions, i, j, id, r);
    PurgeEndsIncarnation(states[k], actions[k], id);
    RunAdvances(states, actions, i, k);
    RunAdvances(states, actions, k + 1, j);
    assert S.StreamOk(states[j].stream) by { RunKeepsInv(states, actions, j); }
    hide IsRun;
    ShownFrom(states[j].stream, v, r);
  }

  /** What a viewer is shown it was replayed or received. */
  lemma ShownFrom(s: S.Stream, v: nat, r: nat)
    requires S.StreamOk(s) && v < |s.viewers| && s.viewers[v].phase.Streaming?
    requires forall n :: 0 <= n < |s.viewers[v].queue| ==> s.viewers[v].queue[n].record.author != r
    ensures var viewer := s.viewers[v];
      && viewer.incarnation <= viewer.phase.incarnation
      && viewer.phase.from + |viewer.phase.replayed| == viewer.phase.through
      && ((forall n :: !Replays(viewer, n, r)) ==>
           forall item :: item in S.Shown(viewer) ==> item.record.author != r)
  {
    var viewer := s.viewers[v];
    assert S.ViewerOk(s, viewer);
    S.LiveFilters(viewer.queue, viewer.phase.through);
    assert forall n :: 0 <= n < |viewer.phase.replayed| && viewer.phase.replayed[n].author == r ==> Replays(viewer, n, r);
  }

  /** The section that completes a withdrawal. */
  predicate PurgesHistory(h: Hub, a: Action, id: Id) { a.PurgeHistory? && Purges(h, id) }

  predicate CancelsPurge(h: Hub, a: Action, id: Id) { a.CancelPurge? && Purges(h, id) }

  lemma PurgeEndsIncarnation(h: Hub, a: Action, id: Id)
    requires Enabled(h, a) && PurgesHistory(h, a, id)
    ensures S.Drops(h.stream, id) < S.Drops(Step(h, a).stream, id)
    ensures Step(h, a).stream.viewers == h.stream.viewers
  {}

  /** A withdrawal lasts until its purge has reached the history or is cancelled. */
  lemma {:induction false} WithdrawalEnds(states: seq<Hub>, actions: seq<Action>, i: nat, j: nat, id: Id)
    requires IsRun(states, actions) && i < j < |states|
    requires WithdrawsId(states[i], actions[i], id) && !Purges(states[j], id)
    ensures exists k :: i < k < j && (PurgesHistory(states[k], actions[k], id) || CancelsPurge(states[k], actions[k], id))
    decreases j
  {
    hide Step, Enabled, WithdrawsId, Purges, PurgesHistory, CancelsPurge;
    WithdrawalBegins(states[i], actions[i], id);
    if Purges(states[j - 1], id) {
      PurgeLasts(states[j - 1], actions[j - 1], id);
    } else {
      WithdrawalEnds(states, actions, i, j - 1, id);
    }
  }

  lemma WithdrawalBegins(h: Hub, a: Action, id: Id)
    requires Enabled(h, a) && WithdrawsId(h, a, id)
    ensures Purges(Step(h, a), id)
  {}

  lemma PurgeLasts(h: Hub, a: Action, id: Id)
    requires Enabled(h, a) && Purges(h, id) && !Purges(Step(h, a), id)
    ensures PurgesHistory(h, a, id) || CancelsPurge(h, a, id)
  {
    hide PushEffect, HasReceivers, LiveIds, CapacityAllows, StopReaders, Deliver, S.Push, S.Install, S.Snapshot, S.Leave, S.DropHistories, S.Abandon;
  }

  lemma OneReceived(h: Hub, v: nat, n: nat)
    requires ReceivedOk(h) && v < |h.stream.viewers| && n < |h.stream.viewers[v].queue|
    ensures AuthorOk(h, h.stream.viewers[v].id, h.stream.viewers[v].queue[n].record)
    ensures v < |h.joined| && h.joined[v] <= h.stream.viewers[v].queue[n].record.epoch
  {}

  /** In every reachable state: readers only for desired ids, at most `capacity`
      unfinished ones, and tidy bootstrap sets; and between lifecycle sections
      the senders without a desired server are exactly those left behind. */
  lemma LifecycleInvariant(states: seq<Hub>, actions: seq<Action>, i: nat)
    requires IsRun(states, actions) && i < |states|
    ensures var h := states[i];
      && h.lc.readers.Keys <= h.lc.desired
      && h.left <= h.senders.Keys
      && (h.holder.Free? ==> h.senders.Keys - h.lc.desired == h.left - h.lc.desired)
      && |LiveIds(h)| <= h.capacity
      && h.lc.additions !! h.lc.removals
      && (h.lc.initialized ==> h.lc.additions == {} && h.lc.removals == {})
  {
    RunKeepsInv(states, actions, i);
  }

  /** A purge dropped while it waits for the senders, with one of `id` among them. */
  predicate LeavesSender(h: Hub, a: Action, id: Id) {
    CancelsPurge(h, a, id) && !h.holder.atHistory && id in h.senders
  }

  /** A purge, or the last reader to leave, drops the sender of `id`. */
  predicate DropsSender(h: Hub, a: Action, id: Id) {
    || (a.PurgeSenders? && Purges(h, id))
    || (a.RetireSenders? && h.holder.RetiringAt? && h.holder.task < |h.tasks|
        && h.tasks[h.holder.task].id == id && LastOf(h, h.holder.task))
  }

  /** Since some dropped purge the sender it left has not been dropped either. */
  ghost predicate LeftSince(states: seq<Hub>, actions: seq<Action>, i: nat, id: Id)
    requires i <= |actions| && |actions| < |states|
  {
    exists k :: 0 <= k < i && LeavesSender(states[k], actions[k], id)
      && forall m :: k < m < i ==> !DropsSender(states[m], actions[m], id)
  }

  lemma {:induction false} LeftIsSince(states: seq<Hub>, actions: seq<Action>, i: nat, id: Id)
    requires IsRun(states, actions) && i < |states|
    ensures id in states[i].left <==> LeftSince(states, actions, i, id)
  {
    hide Step, Enabled, LeavesSender, DropsSender;
    if i > 0 {
      LeftIsSince(states, actions, i - 1, id);
      LeftStep(states[i - 1], actions[i - 1], id);
    }
  }

  lemma LeftStep(h: Hub, a: Action, id: Id)
    requires Enabled(h, a)
    ensures id in Step(h, a).left <==> LeavesSender(h, a, id) || (id in h.left && !DropsSender(h, a, id))
  {
    hide PushEffect, HasReceivers, LiveIds, CapacityAllows, StopReaders, Track, Remove, Synchronize, ValidateSubscription,
         Withdrawn, PublishAdmitted, Deliver, S.Push, S.Install, S.Snapshot, S.Leave, S.DropHistories, S.Abandon;
  }

  /** Exactly when a server that is not desired, and not being purged, still has
      a sender: its purge was dropped while it waited for the senders, and no
      later purge or retiring reader has dropped that sender since. */
  lemma LeftBehind(states: seq<Hub>, actions: seq<Action>, i: nat, id: Id)
    requires IsRun(states, actions) && i < |states|
    requires id !in states[i].lc.desired && !Purges(states[i], id)
    ensures id in states[i].senders <==> LeftSince(states, actions, i, id)
  {
    LeftIsSince(states, actions, i, id);
    hide LeftSince, IsRun;
    RunKeepsInv(states, actions, i);
  }

  // ---- subscribing and retiring -----------------------------------------------------------

  predicate Runs(task: Task) { task.active && task.pc != Finished }

  /** A reader of the present generation of `id` runs on that channel. */
  ghost predicate Served(h: Hub, id: Id, channel: nat) {
    exists r :: 0 <= r < |h.tasks| && Runs(h.tasks[r])
      && h.tasks[r] == Task(id, true, Epoch(h, id), channel, h.tasks[r].pc)
  }

  /** The ids that have a running reader, from the tasks alone. */
  function RunningIds(h: Hub): set<Id> {
    set r | 0 <= r < |h.tasks| && Runs(h.tasks[r]) :: h.tasks[r].id
  }

  lemma RunningIsLive(h: Hub)
    requires TasksOk(h) && h.holder.Free?
    ensures LiveIds(h) == RunningIds(h)
  {
    forall id ensures id in LiveIds(h) <==> id in RunningIds(h) {
      if id in LiveIds(h) {
        assert ReaderOk(h, id) && Runs(h.tasks[h.lc.readers[id]]);
      }
      if id in RunningIds(h) {
        var r :| 0 <= r < |h.tasks| && Runs(h.tasks[r]) && h.tasks[r].id == id;
        assert TaskOk(h, r);
      }
    }
  }

  /** Exactly when an admitted subscription gets on to install its receiver:
      without Docker, for a server whose reader is running, and while fewer than
      `capacity` servers have one.  It is refused otherwise. */
  lemma SubscriptionGoesOnIff(states: seq<Hub>, actions: seq<Action>, i: nat, id: Id)
    requires IsRun(states, actions) && i < |states| && Enabled(states[i], BeginSubscribe(id))
    ensures var h := states[i];
      Step(h, BeginSubscribe(id)).holder ==
        if !h.docker || id in RunningIds(h) || |RunningIds(h)| < h.capacity then Subscribing(id) else Free
  {
    RunKeepsInv(states, actions, i);
    hide IsRun;
    RunningIsLive(states[i]);
    hide LiveIds, RunningIds;
  }

  /** Whoever has its receiver installed is attached to its server's channel,
      and with Docker a reader of the present generation runs on it. */
  lemma SubscriberIsServed(states: seq<Hub>, actions: seq<Action>, i: nat)
    requires IsRun(states, actions) && i < |states| && Enabled(states[i], InstallReceiver)
    ensures var h, t := states[i], Step(states[i], InstallReceiver); var v := |h.stream.viewers|;
      && |t.stream.viewers| == v + 1 && t.stream.viewers[v].id == h.holder.id && Attached(t, v)
      && t.holder.Free? && h.holder.id in t.senders && t.senders[h.holder.id] == t.stream.viewers[v].channel
      && (h.docker ==> Served(t, h.holder.id, t.stream.viewers[v].channel))
  {
    RunKeepsInv(states, actions, i);
    hide IsRun;
    var h, id := states[i], states[i].holder.id;
    InstallKeeps(h, id);
    var t := InstallFor(h, id);
    assert TasksOk(t);
    hide Inv, TasksOk;
    ReceiverInstalled(h, id);
    if h.docker {
      OneReader(t, id);
      assert Runs(t.tasks[t.lc.readers[id]]);
    }
  }

  lemma ReceiverInstalled(h: Hub, id: Id)
    requires |h.joined| == |h.stream.viewers|
    ensures var t, v := InstallFor(h, id), |h.stream.viewers|;
      && |t.stream.viewers| == v + 1 && t.stream.viewers[v].id == id && Attached(t, v)
      && t.holder.Free? && id in t.senders && t.senders[id] == t.stream.viewers[v].channel
      && (h.docker ==> id in t.lc.readers && t.lc.readers[id] < |t.tasks| && t.tasks[t.lc.readers[id]].pc != Finished)
  {
    hide HasReceivers;
  }

  /** What becomes of a reader that has seen nobody watching.  One that was
      stopped meanwhile just ends; one whose viewers came back hands over to a
      successor; otherwise it keeps the lifecycle lock to clean up after itself. */
  lemma RetiringIff(states: seq<Hub>, actions: seq<Action>, i: nat, r: nat)
    requires IsRun(states, actions) && i < |states| && Enabled(states[i], BeginRetire(r))
    ensures var h := states[i]; var task, t := h.tasks[r], Step(h, BeginRetire(r));
      var watched := exists v :: 0 <= v < |h.stream.viewers| && h.stream.viewers[v].open && h.stream.viewers[v].channel == task.channel;
      && t.stream == h.stream && t.senders == h.senders && t.lc.desired == h.lc.desired
      && (t.holder == if task.active && !watched then RetiringAt(r, false) else Free)
      && t.tasks[r].pc == (if t.holder.Free? then Finished else Leaving)
      && (task.active && watched ==> Served(t, task.id, task.channel))
      && (!task.active ==> t == h.(tasks := t.tasks))
  {
    hide IsRun, Served, Step, HasReceivers;
    var h := states[i];
    assert Inv(h) by { RunKeepsInv(states, actions, i); }
    var task := h.tasks[r];
    assert TaskOk(h, r);
    if task.active { assert ReaderOk(h, task.id) && task.id in h.lc.desired; }
    hide Inv;
    RetiringStep(h, r);
  }

  lemma RetiringStep(h: Hub, r: nat)
    requires Enabled(h, BeginRetire(r))
    requires var task := h.tasks[r];
      && (task.active <==> task.id in h.lc.readers && h.lc.readers[task.id] == r)
      && (task.active ==> task.id in h.lc.desired)
    ensures var task, t := h.tasks[r], Step(h, BeginRetire(r));
      var watched := exists v :: 0 <= v < |h.stream.viewers| && h.stream.viewers[v].open && h.stream.viewers[v].channel == task.channel;
      && t.stream == h.stream && t.senders == h.senders && t.lc.desired == h.lc.desired
      && (t.holder == if task.active && !watched then RetiringAt(r, false) else Free)
      && t.tasks[r].pc == (if t.holder.Free? then Finished else Leaving)
      && (task.active && watched ==> Served(t, task.id, task.channel))
      && (!task.active ==> t == h.(tasks := t.tasks))
  {
    var task, t := h.tasks[r], Step(h, BeginRetire(r));
    if task.active && HasReceivers(h, task.channel) { assert Runs(t.tasks[|h.tasks|]); }
  }

  /** A reader that has left, like a purge that was completed, leaves neither a
      sender nor a line of its server. */
  lemma NothingIsLeft(states: seq<Hub>, actions: seq<Action>, i: nat, id: Id)
    requires IsRun(states, actions) && i < |actions|
    requires PurgesHistory(states[i], actions[i], id)
      || (actions[i].RetireHistory? && states[i].holder.RetiringAt? && states[i].holder.task < |states[i].tasks|
          && states[i].tasks[states[i].holder.task].id == id)
    ensures id !in states[i + 1].senders && S.Pushed(states[i + 1].stream, id) == 0 && states[i + 1].holder.Free?
  {
    RunKeepsInv(states, actions, i);
    assert HolderOk(states[i]);
    hide Inv;
  }

  // ---- a line arrives, and a viewer leaves ---------------------------------------------------

  /** What a running reader reads is pushed to its server's history under its
      name, and goes to everyone on its channel; then it reads on. */
  lemma ReaderLineArrives(states: seq<Hub>, actions: seq<Action>, i: nat, r: nat, line: Line)
    requires IsRun(states, actions) && i < |states| && r < |states[i].tasks|
    requires states[i].tasks[r].active && states[i].tasks[r].pc == Waiting
    ensures var h, task := states[i], states[i].tasks[r]; var record := S.Record(line, r, task.born);
      && Enabled(h, ReaderPrepare(r, line))
      && var prepared := Step(h, ReaderPrepare(r, line)); var push := ReaderPush(r, Appended(h, task.id, record));
      && Enabled(prepared, push) && Enabled(Step(prepared, push), ReaderSend(r))
      && var t := Step(Step(prepared, push), ReaderSend(r));
      && t == h.(stream := t.stream) && Arrived(h.stream, t.stream, task.id, task.channel, record)
  {
    hide IsRun, Enabled, Step, S.Push, S.Send, PushEffect, Appended, Arrived, ReaderReady;
    var h, task := states[i], states[i].tasks[r];
    var record := S.Record(line, r, task.born);
    RunningReader(states, actions, i, r, record);
    ReaderPublishes(h, r, line, Appended(h, task.id, record));
  }

  /** A running reader waits with nothing in flight, and its channel is its server's. */
  ghost predicate ReaderReady(h: Hub, r: nat, after: map<Id, Log<S.Record>>, record: S.Record)
    requires r < |h.tasks|
  {
    && r !in h.stream.flights && h.tasks[r].id in h.senders && h.senders[h.tasks[r].id] == h.tasks[r].channel
    && PushEffect(h.stream.logs, after, h.tasks[r].id, record)
  }

  lemma RunningReader(states: seq<Hub>, actions: seq<Action>, i: nat, r: nat, record: S.Record)
    requires IsRun(states, actions) && i < |states| && r < |states[i].tasks|
    requires states[i].tasks[r].active && states[i].tasks[r].pc == Waiting
    ensures ReaderReady(states[i], r, Appended(states[i], states[i].tasks[r].id, record), record)
  {
    RunKeepsInv(states, actions, i);
    hide IsRun, PushEffect, Appended;
    var h := states[i];
    AppendedIsPush(h, h.tasks[r].id, record);
    assert TaskOk(h, r) && ReaderOk(h, h.tasks[r].id);
  }

  lemma ReaderPublishes(h: Hub, r: nat, line: Line, after: map<Id, Log<S.Record>>)
    requires r < |h.tasks| && h.tasks[r].active && h.tasks[r].pc == Waiting
    requires ReaderReady(h, r, after, S.Record(line, r, h.tasks[r].born))
    ensures var task := h.tasks[r]; var record := S.Record(line, r, task.born);
      && Enabled(h, ReaderPrepare(r, line))
      && var prepared, push := Step(h, ReaderPrepare(r, line)), ReaderPush(r, after);
      && Enabled(prepared, push) && Enabled(Step(prepared, push), ReaderSend(r))
      && var t := Step(Step(prepared, push), ReaderSend(r));
      && t == h.(stream := t.stream) && Arrived(h.stream, t.stream, task.id, task.channel, record)
  {
    hide S.Push, S.Send, PushEffect;
    var task := h.tasks[r];
    var record := S.Record(line, r, task.born);
    S.PushThenSend(h.stream, r, task.id, record, after, task.channel);
    PushedFlight(h.stream, r, task.id, record, after);
    assert h.stream.flights - {r} == h.stream.flights;
    assert h.tasks[r := task.(pc := Prepared(line))][r := task.(pc := Sending)][r := task] == h.tasks;
  }

  lemma PushedFlight(s: S.Stream, slot: int, id: Id, record: S.Record, after: map<Id, Log<S.Record>>)
    requires PushEffect(s.logs, after, id, record)
    ensures var t := S.Push(s, slot, id, record, after); slot in t.flights && t.flights[slot].id == id
  {}

  /** The next entry of that server, with that record, and nothing else. */
  ghost predicate Arrived(s: S.Stream, t: S.Stream, id: Id, channel: nat, record: S.Record) {
    && LogOf(t.logs, id).items == LogOf(s.logs, id).items + [record]
    && t.flights == s.flights && |t.viewers| == |s.viewers|
    && forall v :: 0 <= v < |s.viewers| ==>
      S.Gets(s.viewers[v], t.viewers[v], channel, S.Item(id, S.Drops(s, id), S.Pushed(s, id) + 1, record))
  }

  /** An admitted supervisor line likewise, as far as its server has a channel. */
  lemma SupervisorLineArrives(states: seq<Hub>, actions: seq<Action>, i: nat, id: Id, line: Line)
    requires IsRun(states, actions) && i < |states| && Enabled(states[i], BeginPublish(id, line)) && id in states[i].senders
    ensures var h := states[i]; var record := S.Record(line, SUPERVISOR, Epoch(h, id));
      && var begun, push := Step(h, BeginPublish(id, line)), PublishPush(Appended(h, id, record));
      && Enabled(begun, push) && Enabled(Step(begun, push), PublishSend)
      && var t := Step(Step(begun, push), PublishSend);
      && t == h.(stream := t.stream) && Arrived(h.stream, t.stream, id, h.senders[id], record)
  {
    hide IsRun, Enabled, Step, S.Push, S.Send, PushEffect, Appended, Arrived;
    var h := states[i];
    var record := S.Record(line, SUPERVISOR, Epoch(h, id));
    FreeToPublish(states, actions, i, id, line, record);
    SupervisorPublishes(h, id, line, Appended(h, id, record));
  }

  lemma FreeToPublish(states: seq<Hub>, actions: seq<Action>, i: nat, id: Id, line: Line, record: S.Record)
    requires IsRun(states, actions) && i < |states| && Enabled(states[i], BeginPublish(id, line))
    ensures states[i].holder.Free? && SUPERVISOR !in states[i].stream.flights
    ensures PushEffect(states[i].stream.logs, Appended(states[i], id, record), id, record)
  {
    RunKeepsInv(states, actions, i);
    hide IsRun, PushEffect, Appended;
    AppendedIsPush(states[i], id, record);
    assert FlightsOk(states[i]);
  }

  lemma SupervisorPublishes(h: Hub, id: Id, line: Line, after: map<Id, Log<S.Record>>)
    requires Enabled(h, BeginPublish(id, line)) && id in h.senders && SUPERVISOR !in h.stream.flights
    requires PushEffect(h.stream.logs, after, id, S.Record(line, SUPERVISOR, Epoch(h, id)))
    ensures var record := S.Record(line, SUPERVISOR, Epoch(h, id));
      && var begun, push := Step(h, BeginPublish(id, line)), PublishPush(after);
      && Enabled(begun, push) && Enabled(Step(begun, push), PublishSend)
      && var t := Step(Step(begun, push), PublishSend);
      && t == h.(stream := t.stream) && Arrived(h.stream, t.stream, id, h.senders[id], record)
  {
    hide S.Push, S.Send, PushEffect, PublishAdmitted;
    var record := S.Record(line, SUPERVISOR, Epoch(h, id));
    S.PushThenSend(h.stream, SUPERVISOR, id, record, after, h.senders[id]);
    PushedFlight(h.stream, SUPERVISOR, id, record, after);
    assert h.stream.flights - {SUPERVISOR} == h.stream.flights;
  }

  /** A viewer that has left receives nothing more, and no longer keeps a reader. */
  lemma {:induction false} LeavingIsFinal(states: seq<Hub>, actions: seq<Action>, i: nat, j: nat, v: nat)
    requires IsRun(states, actions) && i < j < |states| && actions[i] == LeaveViewer(v)
    ensures v < |states[i].stream.viewers| && v < |states[j].stream.viewers|
    ensures !states[j].stream.viewers[v].open && states[j].stream.viewers[v].queue == states[i].stream.viewers[v].queue
    decreases j
  {
    hide Enabled, Step;
    assert Enabled(states[j - 1], actions[j - 1]) && states[j] == Step(states[j - 1], actions[j - 1]);
    if i + 1 < j {
      LeavingIsFinal(states, actions, i, j - 1, v);
      ClosedStays(states[j - 1], actions[j - 1], v);
    } else {
      LeavingCloses(states[i], v);
    }
  }

  lemma LeavingCloses(h: Hub, v: nat)
    requires Enabled(h, LeaveViewer(v))
    ensures v < |h.stream.viewers| == |Step(h, LeaveViewer(v)).stream.viewers|
    ensures var after := Step(h, LeaveViewer(v)).stream.viewers[v]; !after.open && after.queue == h.stream.viewers[v].queue
  {}

  lemma ClosedStays(h: Hub, a: Action, v: nat)
    requires Enabled(h, a) && v < |h.stream.viewers| && !h.stream.viewers[v].open
    ensures v < |Step(h, a).stream.viewers| && !Step(h, a).stream.viewers[v].open
    ensures Step(h, a).stream.viewers[v].queue == h.stream.viewers[v].queue
  {
    hide HasReceivers, LiveIds, StopReaders, S.LogOk, PushEffect, Epoch;
    if a.PublishSend? || a.ReaderSend? || a.InstallReceiver? || a.BeginRetire? {
      hide S.Push;
    } else {
      hide Retire, InstallFor, Deliver, RetireSendersOf, Track, Remove, Synchronize, ValidateSubscription, Withdrawn, PublishAdmitted, CapacityAllows;
    }
  }

  // ---- nothing gets stuck --------------------------------------------------------------------

  /** The next section of whoever holds the lifecycle lock. */
  function NextSection(h: Hub): Action
    requires !h.holder.Free?
  {
    match h.holder
    case Purging(_, atHistory) => if atHistory then PurgeHistory else PurgeSenders
    case Publishing(id, line) => PublishPush(Appended(h, id, S.Record(line, SUPERVISOR, Epoch(h, id))))
    case PublishSending(_) => PublishSend
    case Subscribing(_) => InstallReceiver
    case RetiringAt(_, atHistory) => if atHistory then RetireHistory else RetireSenders
  }

  /** A push that drops nothing. */
  function Appended(h: Hub, id: Id, record: S.Record): map<Id, Log<S.Record>> {
    var log := LogOf(h.stream.logs, id);
    h.stream.logs[id := Log(log.items + [record], log.trimmed)]
  }

  /** The lifecycle lock is given back: in every reachable state its holder can
      go on, and has done so after at most two sections. */
  lemma LockIsGivenBack(states: seq<Hub>, actions: seq<Action>, i: nat)
    requires IsRun(states, actions) && i < |states| && !states[i].holder.Free?
    ensures Enabled(states[i], NextSection(states[i]))
    ensures var t := Step(states[i], NextSection(states[i]));
      t.holder.Free? || (Enabled(t, NextSection(t)) && Step(t, NextSection(t)).holder.Free?)
  {
    RunKeepsInv(states, actions, i);
    hide IsRun;
    SectionEnabled(states[i]);
    var t := Step(states[i], NextSection(states[i]));
    StepKeepsInv(states[i], NextSection(states[i]));
    SectionFrees(states[i]);
    if !t.holder.Free? {
      SectionEnabled(t);
      SectionFrees(t);
    }
  }

  lemma SectionEnabled(h: Hub)
    requires Inv(h) && !h.holder.Free?
    ensures Enabled(h, NextSection(h))
  {
    hide PushEffect, Appended, PublishAdmitted, ValidateSubscription, S.LogOk, Epoch, Enabled;
    assert HolderOk(h);
    if h.holder.Publishing? {
      AppendedIsPush(h, h.holder.id, S.Record(h.holder.line, SUPERVISOR, Epoch(h, h.holder.id)));
    }
    hide Inv, HolderOk, LifecycleOk, HasReceivers;
    SectionMayRun(h);
  }

  lemma SectionMayRun(h: Hub)
    requires !h.holder.Free?
    requires match h.holder
      case Publishing(id, line) =>
        var record := S.Record(line, SUPERVISOR, Epoch(h, id)); PushEffect(h.stream.logs, Appended(h, id, record), id, record)
      case PublishSending(_) => SUPERVISOR in h.stream.flights
      case RetiringAt(r, _) => r < |h.tasks|
      case _ => true
    ensures Enabled(h, NextSection(h))
  {
    hide PushEffect, Appended, PublishAdmitted, ValidateSubscription, S.LogOk, Epoch;
  }

  lemma AppendedIsPush(h: Hub, id: Id, record: S.Record)
    requires Inv(h)
    ensures PushEffect(h.stream.logs, Appended(h, id, record), id, record)
  {
    assert id in h.stream.logs ==> S.LogOk(h.stream, id);
  }

  /** The first of two sections hands the lock to the second, which frees it. */
  lemma SectionFrees(h: Hub)
    requires !h.holder.Free? && Enabled(h, NextSection(h))
    ensures var t := Step(h, NextSection(h)).holder;
      match h.holder
      case Purging(ids, atHistory) => t == if atHistory then Free else Purging(ids, true)
      case Publishing(id, _) => t == PublishSending(id)
      case RetiringAt(r, atHistory) => t == if atHistory then Free else RetiringAt(r, true)
      case _ => t == Free
  {
    hide LiveIds, HasReceivers, PushEffect, S.Push, Deliver;
  }

  /** Nor is a reader ever stuck: with the lifecycle lock free, each unfinished
      one has a section to go on with. */
  lemma ReaderCanGoOn(states: seq<Hub>, actions: seq<Action>, i: nat, r: nat, line: Line)
    requires IsRun(states, actions) && i < |states| && states[i].holder.Free?
    requires r < |states[i].tasks| && states[i].tasks[r].pc != Finished
    ensures var h := states[i]; var task := h.tasks[r];
      match task.pc
      case Waiting => Enabled(h, if task.active then ReaderPrepare(r, line) else ReaderStop(r))
      case Prepared(prepared) => Enabled(h, ReaderPush(r, Appended(h, task.id, S.Record(prepared, r, task.born))))
      case Sending => Enabled(h, ReaderSend(r))
      case Retiring => Enabled(h, BeginRetire(r))
      case _ => false
  {
    hide IsRun, TasksOk, CapacityOk, HolderOk, ChannelsOk, ViewersOk, ReceivedOk, FlightsOk, S.StreamOk, CompleteOk,
         PushEffect, Appended, PublishAdmitted, ValidateSubscription, S.LogOk, Epoch;
    var h := states[i];
    assert Inv(h) by { RunKeepsInv(states, actions, i); }
    var task := h.tasks[r];
    OneTask(h, r);
    if task.pc.Prepared? { AppendedIsPush(h, task.id, S.Record(task.pc.line, r, task.born)); }
  }

  /** No server ever has two running readers that could both still publish. */
  lemma OneWriterPerServer(states: seq<Hub>, actions: seq<Action>, i: nat, a: nat, b: nat)
    requires IsRun(states, actions) && i < |states| && a < |states[i].tasks| && b < |states[i].tasks|
    requires states[i].tasks[a].id == states[i].tasks[b].id
    requires states[i].tasks[a].active && states[i].tasks[a].pc != Finished && states[i].tasks[a].pc != Leaving
    requires states[i].tasks[b].active && states[i].tasks[b].pc != Finished && states[i].tasks[b].pc != Leaving
    ensures a == b
  {
    hide IsRun;
    RunKeepsInv(states, actions, i);
    OneTask(states[i], a);
    OneTask(states[i], b);
  }

  /** Exactly once, first half: whatever happens, no viewer is shown an entry twice. */
  lemma ViewerSeesNothingTwice(states: seq<Hub>, actions: seq<Action>, i: nat, v: nat)
    requires IsRun(states, actions) && i < |states|
    requires v < |states[i].stream.viewers| && states[i].stream.viewers[v].phase.Streaming?
    ensures states[i].stream.viewers[v].phase.from + |states[i].stream.viewers[v].phase.replayed|
      == states[i].stream.viewers[v].phase.through
    ensures S.NoRepeats(S.Shown(states[i].stream.viewers[v]))
  {
    hide IsRun;
    RunKeepsInv(states, actions, i);
    S.ShownOnce(states[i].stream, v);
  }

  /** Exactly once, second half: as long as its server was not withdrawn and its
      history not dropped, an attached viewer has been shown every entry of that
      history, replayed or live, except those still in flight and those that have
      left the bounded history. */
  lemma ViewerMissesNothing(states: seq<Hub>, actions: seq<Action>, i: nat, v: nat, n: nat)
    requires IsRun(states, actions) && i < |states| && v < |states[i].stream.viewers|
    requires var viewer := states[i].stream.viewers[v];
      && Attached(states[i], v) && viewer.phase.Streaming?
      && viewer.incarnation == S.Drops(states[i].stream, viewer.id)
      && 1 <= n <= S.Pushed(states[i].stream, viewer.id)
    ensures var s, viewer := states[i].stream, states[i].stream.viewers[v];
      && viewer.phase.from + |viewer.phase.replayed| == viewer.phase.through
      && (S.Item(viewer.id, viewer.incarnation, n, LogOf(s.logs, viewer.id).items[n - 1]) in S.Shown(viewer)
          || S.Flying(s, viewer.id, n)
          || n <= LogOf(s.logs, viewer.id).trimmed)
  {
    hide IsRun;
    RunKeepsInv(states, actions, i);
    S.ShownUnlessTrimmed(states[i].stream, v, n);
  }

  /** While a viewer stays attached, only the budget, spent on another server's
      lines, can drop the history it is reading; retiring readers never do. */
  lemma OnlyEvictionDropsAWatchedHistory(h: Hub, a: Action, v: nat)
    requires Inv(h) && Enabled(h, a) && v < |h.stream.viewers|
    requires Attached(h, v)
    requires S.Drops(Step(h, a).stream, h.stream.viewers[v].id) != S.Drops(h.stream, h.stream.viewers[v].id)
    ensures (a.PublishPush? && h.holder.id != h.stream.viewers[v].id)
      || (a.ReaderPush? && h.tasks[a.task].id != h.stream.viewers[v].id)
  {
    hide TasksOk, CapacityOk, ReceivedOk, FlightsOk, S.StreamOk, CompleteOk;
    DropsOnlyBy(h, a, h.stream.viewers[v].id);
  }

  lemma DropsOnlyBy(h: Hub, a: Action, id: Id)
    requires Enabled(h, a) && S.Drops(Step(h, a).stream, id) != S.Drops(h.stream, id)
    ensures (a.PublishPush? && h.holder.id != id) || (a.ReaderPush? && h.tasks[a.task].id != id)
      || (a.PurgeHistory? && id in h.holder.ids) || (a.RetireHistory? && h.tasks[h.holder.task].id == id)
  {
    hide HasReceivers, LiveIds, CapacityAllows, StopReaders, Track, Remove, Synchronize, ValidateSubscription,
         Withdrawn, PublishAdmitted, Retire, RetireSendersOf, EnsureReader, S.LogOk;
    if a.InstallReceiver? || a.BeginRetire? || a.RetireSenders? { SubscriptionDropsNothing(h, a); }
  }

  lemma SubscriptionDropsNothing(h: Hub, a: Action)
    requires Enabled(h, a) && (a.InstallReceiver? || a.BeginRetire? || a.RetireSenders?)
    ensures Step(h, a).stream.drops == h.stream.drops
  {
    hide HasReceivers, LiveIds, StopReaders;
  }
}
