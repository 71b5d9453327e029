/** What a removal leaves behind that is dropped while it waits for a lock: a
    sender of a server nobody wants, or lines of a reader that was stopped. */
module ConsoleCancellation {
  import opened ConsoleHistory
  import opened ConsoleHub
  import opened ConsoleLifecycle
  import opened ConsoleRounds
  import S = ConsoleStream

  /** The hub once "a" is watched. */
  function Watched(stream: S.Stream): Hub {
    Hub(true, 1, INITIAL.(desired := {"a"}, readers := map["a" := 0]), Free, map["a" := 0], ["a"],
      [Task("a", true, 0, 0, Waiting)], map[], [0], {}, stream)
  }

  function Fresh(): S.Stream { S.Stream(map[], map[], map[], [S.Viewer("a", 0, 0, 0, [], S.Attaching, true)]) }

  lemma Watch() returns (states: seq<Hub>)
    ensures Connects(states, Opening("a")) && states[0] == Initial(true, 1) && states[2] == Watched(Fresh())
  {
    states := OpeningRound(Initial(true, 1), "a");
  }

  // ---- cancelled before the senders ------------------------------------------------------

  lemma Leave() returns (states: seq<Hub>)
    ensures Connects(states, [BeginRemove("a"), CancelPurge]) && states[0] == Watched(Fresh())
    ensures states[2].holder.Free? && states[2].senders.Keys == {"a"} && states[2].lc.desired == {}
  {
    var h := Watched(Fresh());
    var removing := Step(h, BeginRemove("a"));
    states := [h, removing, Step(removing, CancelPurge)];
  }

  /** The removal of a watched server, dropped while it waits for the senders. */
  lemma RemovalCanLeaveASender() returns (states: seq<Hub>)
    ensures IsRun(states, Opening("a") + [BeginRemove("a"), CancelPurge]) && |states| == 5
    ensures states[4].holder.Free? && states[4].senders.Keys == {"a"} && states[4].lc.desired == {}
  {
    hide Connects, Watched;
    states := Watch();
    var leaving := Leave();
    states := Joined(states, Opening("a"), leaving, [BeginRemove("a"), CancelPurge]);
  }

  // ---- cancelled before the history ------------------------------------------------------

  function OldLine(line: Line): S.Record { S.Record(line, 0, 0) }

  function Logged(line: Line): map<Id, Log<S.Record>> { map["a" := Log([OldLine(line)], 0)] }

  function OldItem(line: Line): S.Item { S.Item("a", 0, 1, OldLine(line)) }

  /** The removed server's reader has logged one line. */
  function Read(line: Line): S.Stream {
    S.Stream(Logged(line), map[], map[], [S.Viewer("a", 0, 0, 0, [OldItem(line)], S.Attaching, true)])
  }

  lemma ReadOne(line: Line) returns (states: seq<Hub>)
    ensures Connects(states, Reading(0, line, Logged(line))) && states[0] == Watched(Fresh()) && states[3] == Watched(Read(line))
  {
    states := ReadingRound(Watched(Fresh()), 0, line, Logged(line));
    hide Connects;
    var pushed := S.Push(Fresh(), 0, "a", OldLine(line), Logged(line));
    assert pushed == S.Stream(Logged(line), map[], map[0 := OldItem(line)], Fresh().viewers);
    assert pushed.flights - {0} == map[];
    assert [] + [OldItem(line)] == [OldItem(line)];
    assert S.Send(pushed, 0, 0).viewers == Read(line).viewers;
  }

  /** The removal is dropped while it waits for the history, and the server comes back. */
  function Removing(): seq<Action> { [BeginRemove("a"), PurgeSenders, CancelPurge, TrackServer("a")] }

  /** The hub after that: the old reader is stopped, and the history still there. */
  function Returned(line: Line): Hub {
    Hub(true, 1, INITIAL.(desired := {"a"}, additions := {"a"}), Free, map[], ["a"],
      [Task("a", false, 0, 0, Waiting)], map["a" := 1], [0], {}, Read(line))
  }

  lemma Return(line: Line) returns (states: seq<Hub>)
    ensures Connects(states, Removing()) && states[0] == Watched(Read(line)) && states[4] == Returned(line)
  {
    var h := Watched(Read(line));
    var removing := Step(h, BeginRemove("a"));
    var purging := Step(removing, PurgeSenders);
    var dropped := Step(purging, CancelPurge);
    states := [h, removing, purging, dropped, Step(dropped, TrackServer("a"))];
    assert removing.tasks == Returned(line).tasks;
  }

  /** A second viewer, in the new generation. */
  function Second(phase: S.Phase): S.Viewer { S.Viewer("a", 1, 0, 1, [], phase, true) }

  function Reopened(line: Line, phase: S.Phase): Hub {
    Hub(true, 1, INITIAL.(desired := {"a"}, readers := map["a" := 1], additions := {"a"}), Free, map["a" := 1], ["a", "a"],
      [Task("a", false, 0, 0, Waiting), Task("a", true, 1, 1, Waiting)], map["a" := 1], [0, 1], {},
      Read(line).(viewers := Read(line).viewers + [Second(phase)]))
  }

  lemma Reopen(line: Line) returns (states: seq<Hub>)
    ensures Connects(states, Opening("a")) && states[0] == Returned(line) && states[2] == Reopened(line, S.Attaching)
  {
    states := OpeningRound(Returned(line), "a");
    assert states[2].tasks == Reopened(line, S.Attaching).tasks;
  }

  lemma Replay(line: Line) returns (states: seq<Hub>)
    ensures Connects(states, [TakeSnapshot(1)]) && states[0] == Reopened(line, S.Attaching)
    ensures states[1] == Reopened(line, S.Streaming(0, 0, 1, [OldLine(line)]))
  {
    var h := Reopened(line, S.Attaching);
    states := [h, Step(h, TakeSnapshot(1))];
    assert Logged(line)["a"].items[0..] == [OldLine(line)];
  }

  function Sections(line: Line): seq<Action> {
    Opening("a") + Reading(0, line, Logged(line)) + Removing() + (Opening("a") + [TakeSnapshot(1)])
  }

  /** Why a viewer is safe from an old reader's lines only once a purge has
      reached the history: where that purge was dropped, a viewer that subscribes
      afterwards is replayed a line of the reader that the removal stopped. */
  lemma DroppedPurgeCanReplayAnOldLine(line: Line) returns (states: seq<Hub>)
    ensures IsRun(states, Sections(line)) && |states| == 13
    ensures |Sections(line)| == 12 && WithdrawsId(states[5], Sections(line)[5], "a")
    ensures |states[5].stream.viewers| == 1 && |states[5].tasks| == 1 && states[5].tasks[0].id == "a"
    ensures |states[12].stream.viewers| == 2 && states[12].stream.viewers[1] == Second(S.Streaming(0, 0, 1, [OldLine(line)]))
    ensures S.Shown(Second(S.Streaming(0, 0, 1, [OldLine(line)]))) == [OldItem(line)]
  {
    var first := Reading(0, line, Logged(line));
    states := Watch();
    var round := ReadOne(line);
    states := Joined(states, Opening("a"), round, first);
    var removed := Return(line);
    assert states[5] == Watched(Read(line));
    states := Joined(states, Opening("a") + first, removed, Removing());
    assert states[5] == Watched(Read(line));
    round := Reopen(line);
    var replay := Replay(line);
    round := Joined(round, Opening("a"), replay, [TakeSnapshot(1)]);
    states := Joined(states, Opening("a") + first + Removing(), round, Opening("a") + [TakeSnapshot(1)]);
  }
}
