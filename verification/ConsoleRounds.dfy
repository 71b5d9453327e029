/** Building blocks of concrete runs of the console hub. */
module ConsoleRounds {
  import opened ConsoleHistory
  import opened ConsoleHub
  import opened ConsoleLifecycle
  import S = ConsoleStream

  lemma Joined(states: seq<Hub>, actions: seq<Action>, later: seq<Hub>, next: seq<Action>) returns (all: seq<Hub>)
    requires Connects(states, actions) && Connects(later, next) && states[|actions|] == later[0]
    ensures Connects(all, actions + next) && |all| == |actions| + |next| + 1
    ensures (forall i :: 0 <= i <= |actions| ==> all[i] == states[i]) && all[|actions| + |next|] == later[|next|]
  {
    hide Enabled, Step;
    all := states + later[1..];
    var both := actions + next;
    forall i | 0 <= i < |both| ensures Enabled(all[i], both[i]) && all[i + 1] == Step(all[i], both[i]) {
      if i >= |actions| { assert all[i] == later[i - |actions|] && both[i] == next[i - |actions|]; }
    }
  }

  /** A viewer subscribes. */
  function Opening(id: Id): seq<Action> { [BeginSubscribe(id), InstallReceiver] }

  lemma OpeningRound(h: Hub, id: Id) returns (states: seq<Hub>)
    requires h.holder.Free? && ValidateSubscription(h.lc, id).Success? && CapacityAllows(h, id)
    ensures Connects(states, Opening(id)) && states[0] == h
    ensures states[2] == InstallFor(h.(lc := ValidateSubscription(h.lc, id).value, holder := Subscribing(id)), id)
  {
    hide InstallFor, CapacityAllows;
    var begun := Step(h, BeginSubscribe(id));
    states := [h, begun, Step(begun, InstallReceiver)];
  }

  /** A reader publishes one line. */
  function Reading(r: nat, line: Line, after: map<Id, Log<S.Record>>): (actions: seq<Action>)
    ensures |actions| == 3
  {
    [ReaderPrepare(r, line), ReaderPush(r, after), ReaderSend(r)]
  }

  lemma ReadingRound(h: Hub, r: nat, line: Line, after: map<Id, Log<S.Record>>) returns (states: seq<Hub>)
    requires r < |h.tasks| && h.tasks[r].pc == Waiting && h.tasks[r].active && h.tasks[r].id in h.senders
    requires PushEffect(h.stream.logs, after, h.tasks[r].id, S.Record(line, r, h.tasks[r].born))
    ensures Connects(states, Reading(r, line, after)) && states[0] == h
    ensures var id := h.tasks[r].id;
      var pushed := S.Push(h.stream, r, id, S.Record(line, r, h.tasks[r].born), after);
      states[3] == h.(stream := S.Send(pushed, r, h.senders[id]))
  {
    var id, record := h.tasks[r].id, S.Record(line, r, h.tasks[r].born);
    var pushed := At(h, r, Sending).(stream := S.Push(h.stream, r, id, record, after));
    InFlight(h.stream, r, id, record, after);
    hide S.Push, S.Send, PushEffect;
    var prepared := Step(h, ReaderPrepare(r, line));
    assert Enabled(prepared, ReaderPush(r, after)) && Step(prepared, ReaderPush(r, after)) == pushed by {
      assert h.tasks[r := h.tasks[r].(pc := Prepared(line))][r := h.tasks[r].(pc := Sending)] == h.tasks[r := h.tasks[r].(pc := Sending)];
    }
    var sent := SendingStep(h, r, pushed.stream);
    states := [h, prepared, pushed, sent];
  }

  lemma InFlight(s: S.Stream, r: nat, id: Id, record: S.Record, after: map<Id, Log<S.Record>>)
    requires PushEffect(s.logs, after, id, record)
    ensures r in S.Push(s, r, id, record, after).flights && S.Push(s, r, id, record, after).flights[r].id == id
  {}

  lemma SendingStep(h: Hub, r: nat, stream: S.Stream) returns (sent: Hub)
    requires r < |h.tasks| && h.tasks[r].pc == Waiting && h.tasks[r].active && h.tasks[r].id in h.senders
    requires r in stream.flights && stream.flights[r].id == h.tasks[r].id
    ensures var pushed := At(h, r, Sending).(stream := stream);
      Enabled(pushed, ReaderSend(r)) && sent == Step(pushed, ReaderSend(r))
    ensures sent == h.(stream := S.Send(stream, r, h.senders[h.tasks[r].id]))
  {
    hide S.Send;
    sent := Step(At(h, r, Sending).(stream := stream), ReaderSend(r));
    assert sent.tasks == h.tasks;
  }
}
