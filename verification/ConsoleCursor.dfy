/** Resuming Docker's log after a reconnect (src/grpc/services/console/reader.rs).

    Docker's log is an append-only sequence of timestamped lines.  A reconnect
    can only ask for whole seconds, so it replays lines already published; the
    cursor, the newest timestamp together with the lines seen at it, filters
    them out again. */
module ConsoleCursor {
  import opened Machine
  import opened Wrappers
  import opened ConsoleHistory

  const NANOS: nat := 1_000_000_000
  const I32_MAX: nat := 0x7fff_ffff
  /** The tail a reader without a cursor asks for (src/runtime/docker/console.rs). */
  const FIRST_TAIL: nat := 200

  /** A log line and its nanosecond timestamp. */
  datatype Logged = Logged(time: nat, line: Line)

  datatype Cursor = Cursor(time: Option<nat>, lines: set<Line>)

  const START: Cursor := Cursor(None, {})

  // ---- one line ------------------------------------------------------------------

  /** Whether a replayed line lies beyond the cursor the connection was opened with. */
  predicate Passes(cutoff: Cursor, entry: Logged) {
    cutoff.time.None? || (entry.time >= cutoff.time.value && !(entry.time == cutoff.time.value && entry.line in cutoff.lines))
  }

  function Advance(cursor: Cursor, entry: Logged): Cursor {
    if cursor.time.Some? && entry.time < cursor.time.value then cursor
    else if cursor.time.Some? && entry.time == cursor.time.value then cursor.(lines := cursor.lines + {entry.line})
    else Cursor(Some(entry.time), {entry.line})
  }

  // ---- one connection ---------------------------------------------------------------

  function Filter(cutoff: Cursor, entries: seq<Logged>): seq<Logged> {
    if entries == [] then [] else
      Filter(cutoff, entries[..|entries| - 1])
      + if Passes(cutoff, entries[|entries| - 1]) then [entries[|entries| - 1]] else []
  }

  function Follow(cursor: Cursor, entries: seq<Logged>): Cursor {
    if entries == [] then cursor else Advance(Follow(cursor, entries[..|entries| - 1]), entries[|entries| - 1])
  }

  function SinceSeconds(time: nat): nat {
    if time / NANOS > I32_MAX then I32_MAX else time / NANOS
  }

  /** Where a connection's replay starts: Docker's first line at or after `since`,
      or the configured tail of what there is. */
  function ReplayStart(log: seq<Logged>, cursor: Cursor): (start: nat)
    ensures start <= |log|
  {
    if cursor.time.Some? then FirstSince(log, SinceSeconds(cursor.time.value) * NANOS)
    else if |log| > FIRST_TAIL then |log| - FIRST_TAIL else 0
  }

  function FirstSince(log: seq<Logged>, since: nat): (start: nat)
    ensures start <= |log|
    ensures forall k :: 0 <= k < start ==> log[k].time < since
    ensures start < |log| ==> log[start].time >= since
  {
    if log == [] || log[0].time >= since then 0 else
      1 + FirstSince(log[1..], since)
  }

  /** The reader's local state: `cursor` and `cursor_lines` of `read_loop`. */
  class Reader {
    var time: Option<nat>
    var lines: set<Line>

    ghost function State(): Cursor
      reads this
    {
      Cursor(time, lines)
    }

    constructor ()
      ensures State() == START
    {
      time, lines := None, {};
    }

    /** `process_docker_line` up to the publish. */
    method ProcessLine(entry: Logged, cutoff: Cursor) returns (through: bool)
      modifies this
      ensures through == Passes(cutoff, entry)
      ensures State() == if through then Advance(old(State()), entry) else old(State())
    {
      if cutoff.time.Some? && (entry.time < cutoff.time.value || (entry.time == cutoff.time.value && entry.line in cutoff.lines)) {
        return false;
      }
      if time.Some? && entry.time < time.value {
      } else if time.Some? && entry.time == time.value {
        lines := lines + {entry.line};
      } else {
        time, lines := Some(entry.time), {entry.line};
      }
      return true;
    }

    /** One connection: everything it delivers before it is cut. */
    method Connect(entries: seq<Logged>) returns (published: seq<Logged>)
      modifies this
      ensures published == Filter(old(State()), entries)
      ensures State() == Follow(old(State()), published)
    {
      var cutoff := Cursor(time, lines);
      published := [];
      for i := 0 to |entries|
        invariant published == Filter(cutoff, entries[..i])
        invariant State() == Follow(cutoff, published)
      {
        assert entries[..i + 1][..i] == entries[..i];
        var through := ProcessLine(entries[i], cutoff);
        if through {
          assert (published + [entries[i]])[..|published|] == published;
          published := published + [entries[i]];
        }
      }
      assert entries[..|entries|] == entries;
    }
  }

  // ---- what the cursor knows -----------------------------------------------------------

  ghost predicate Sorted(log: seq<Logged>) {
    forall i, j :: 0 <= i <= j < |log| ==> log[i].time <= log[j].time
  }

  ghost predicate Distinct(log: seq<Logged>) {
    forall i, j :: 0 <= i < j < |log| ==> log[i] != log[j]
  }

  /** The cursor stands for having published exactly `log[a..b]`. */
  ghost predicate Covers(log: seq<Logged>, a: nat, b: nat, cursor: Cursor) {
    && a <= b <= |log|
    && if a == b then cursor == START else
         && cursor.time == Some(log[b - 1].time)
         && forall line :: line in cursor.lines <==>
              exists k :: a <= k < b && log[k] == Logged(log[b - 1].time, line)
  }

  /** The first line published does not share its timestamp with a line before it. */
  predicate WholeGroup(log: seq<Logged>, a: nat) {
    0 < a < |log| ==> log[a - 1].time < log[a].time
  }

  lemma {:induction false} FilterAppend(cutoff: Cursor, a: seq<Logged>, b: seq<Logged>)
    ensures Filter(cutoff, a + b) == Filter(cutoff, a) + Filter(cutoff, b)
  {
    if b == [] {
      assert a + b == a;
    } else {
      FilterAppend(cutoff, a, b[..|b| - 1]);
      assert (a + b)[..|a + b| - 1] == a + b[..|b| - 1];
    }
  }

  lemma {:induction false} FilterMeaning(cutoff: Cursor, entries: seq<Logged>)
    ensures |Filter(cutoff, entries)| <= |entries|
    ensures forall entry :: entry in Filter(cutoff, entries) <==> entry in entries && Passes(cutoff, entry)
    ensures Filter(cutoff, entries) == entries <==> forall entry :: entry in entries ==> Passes(cutoff, entry)
    ensures Filter(cutoff, entries) == [] <==> forall entry :: entry in entries ==> !Passes(cutoff, entry)
  {
    if entries != [] {
      var last := entries[|entries| - 1];
      FilterMeaning(cutoff, entries[..|entries| - 1]);
      assert entries == entries[..|entries| - 1] + [last];
      assert forall entry :: entry in entries <==> entry in entries[..|entries| - 1] || entry == last;
    }
  }

  /** Publishing further lines moves the cursor along. */
  lemma {:induction false} FollowCovers(log: seq<Logged>, a: nat, b: nat, c: nat, cursor: Cursor)
    requires Sorted(log) && Covers(log, a, b, cursor) && b <= c <= |log|
    ensures Covers(log, a, c, Follow(cursor, log[b..c]))
    decreases c - b
  {
    hide Covers, Sorted;
    if b < c {
      FollowCovers(log, a, b, c - 1, cursor);
      assert log[b..c][..c - b - 1] == log[b..c - 1];
      var before := Follow(cursor, log[b..c - 1]);
      assert Follow(cursor, log[b..c]) == Advance(before, log[c - 1]);
      AdvanceCovers(log, a, c - 1, before);
    }
  }

  lemma AdvanceCovers(log: seq<Logged>, a: nat, b: nat, cursor: Cursor)
    requires Sorted(log) && Covers(log, a, b, cursor) && b < |log|
    ensures Covers(log, a, b + 1, Advance(cursor, log[b]))
  {}

  // ---- resuming ---------------------------------------------------------------------------

  /** What must hold of the replayed lines at the cursor's own timestamp: those
      already published are known to it, those not yet published are not. */
  ghost predicate Resumable(log: seq<Logged>, b: nat, cut: nat, cursor: Cursor)
    requires cut <= |log| && cursor.time.Some?
  {
    var s := ReplayStart(log, cursor);
    && (forall k :: s <= k < b && k < cut && log[k].time == cursor.time.value ==> log[k].line in cursor.lines)
    && (forall k :: b <= k < cut && log[k].time == cursor.time.value ==> log[k].line !in cursor.lines)
  }

  /** Where a connection starts: without a cursor, 200 lines before the end; with
      one, at the first line of the cursor's second (or of the last second that
      fits 32 bits), because Docker takes no finer time. */
  lemma ReplayStartIs(log: seq<Logged>, cursor: Cursor, k: nat)
    requires Sorted(log) && k < |log|
    ensures cursor.time.None? ==> (k >= ReplayStart(log, cursor) <==> |log| - k <= 200)
    ensures cursor.time.Some? ==>
      var second := Min(cursor.time.value / 1_000_000_000, 0x7fff_ffff);
      k >= ReplayStart(log, cursor) <==> log[k].time / 1_000_000_000 >= second
  {}

  lemma ReplayReachesBack(log: seq<Logged>, a: nat, b: nat, cursor: Cursor)
    requires Sorted(log) && Covers(log, a, b, cursor) && a < b
    ensures ReplayStart(log, cursor) < b
    ensures forall k :: 0 <= k < b ==> log[k].time <= cursor.time.value
    ensures forall k :: b <= k < |log| ==> log[k].time >= cursor.time.value
  {}

  /** Splits a replay at the first line not yet published. */
  lemma ReplaySplits(log: seq<Logged>, a: nat, b: nat, cut: nat, cursor: Cursor)
    requires Sorted(log) && Covers(log, a, b, cursor) && a < b
    requires ReplayStart(log, cursor) <= cut <= |log|
    ensures var s, mid := ReplayStart(log, cursor), if b <= cut then b else cut;
      && s <= mid
      && Filter(cursor, log[s..cut]) == Filter(cursor, log[s..mid]) + Filter(cursor, log[mid..cut])
  {
    ReplayReachesBack(log, a, b, cursor);
    var s, mid := ReplayStart(log, cursor), if b <= cut then b else cut;
    assert log[s..cut] == log[s..mid] + log[mid..cut];
    FilterAppend(cursor, log[s..mid], log[mid..cut]);
  }

  lemma SliceMembers(log: seq<Logged>, lo: nat, hi: nat)
    requires lo <= hi <= |log|
    ensures forall k :: lo <= k < hi ==> log[k] in log[lo..hi]
    ensures forall entry :: entry in log[lo..hi] ==> exists k :: lo <= k < hi && log[k] == entry
  {}

  lemma OldLinesStop(log: seq<Logged>, a: nat, b: nat, mid: nat, cursor: Cursor)
    requires Sorted(log) && Covers(log, a, b, cursor) && a < b && ReplayStart(log, cursor) <= mid <= b
    ensures Filter(cursor, log[ReplayStart(log, cursor)..mid]) == [] <==>
      forall k :: ReplayStart(log, cursor) <= k < mid && log[k].time == cursor.time.value ==> log[k].line in cursor.lines
  {
    ReplayReachesBack(log, a, b, cursor);
    hide Covers, Sorted, Filter, ReplayStart;
    var s := ReplayStart(log, cursor);
    FilterMeaning(cursor, log[s..mid]);
    NoneAbovePasses(log, s, mid, cursor);
  }

  /** Among lines no later than the cursor, all are stopped exactly if those at its timestamp are known. */
  lemma NoneAbovePasses(log: seq<Logged>, lo: nat, hi: nat, cursor: Cursor)
    requires lo <= hi <= |log| && cursor.time.Some? && forall k :: lo <= k < hi ==> log[k].time <= cursor.time.value
    ensures (forall entry :: entry in log[lo..hi] ==> !Passes(cursor, entry)) <==>
      forall k :: lo <= k < hi && log[k].time == cursor.time.value ==> log[k].line in cursor.lines
  {
    SliceMembers(log, lo, hi);
    if forall entry :: entry in log[lo..hi] ==> !Passes(cursor, entry) {
      forall k | lo <= k < hi && log[k].time == cursor.time.value ensures log[k].line in cursor.lines {
        assert !Passes(cursor, log[k]);
      }
    }
  }

  lemma NewLinesPass(log: seq<Logged>, a: nat, b: nat, mid: nat, cut: nat, cursor: Cursor)
    requires Sorted(log) && Covers(log, a, b, cursor) && a < b && mid <= cut <= |log| && (mid < cut ==> b <= mid)
    ensures (forall entry :: entry in log[mid..cut] ==> Passes(cursor, entry)) <==>
      forall k :: mid <= k < cut && log[k].time == cursor.time.value ==> log[k].line !in cursor.lines
  {
    ReplayReachesBack(log, a, b, cursor);
    hide Covers, Sorted, ReplayStart;
    SliceMembers(log, mid, cut);
    if forall entry :: entry in log[mid..cut] ==> Passes(cursor, entry) {
      forall k | mid <= k < cut && log[k].time == cursor.time.value ensures log[k].line !in cursor.lines {
        assert Passes(cursor, log[k]);
      }
    }
  }

  lemma OnlyNewIff(cursor: Cursor, all: seq<Logged>, older: seq<Logged>, newer: seq<Logged>)
    requires Filter(cursor, all) == Filter(cursor, older) + Filter(cursor, newer)
    ensures Filter(cursor, all) == newer <==>
      Filter(cursor, older) == [] && forall entry :: entry in newer ==> Passes(cursor, entry)
  {
    hide Filter, Passes;
    FilterMeaning(cursor, older);
    FilterMeaning(cursor, newer);
    if Filter(cursor, all) == newer {
      FilterMeaning(cursor, all);
      forall entry | entry in newer ensures Passes(cursor, entry) {
        assert entry in Filter(cursor, older) || entry in Filter(cursor, newer);
      }
      assert |Filter(cursor, older)| == 0;
    }
  }

  /** A reconnect, cut anywhere, lets through exactly the next lines of the log
      if and only if the cursor tells old from new at its own timestamp. */
  lemma ResumesIff(log: seq<Logged>, a: nat, b: nat, cut: nat, cursor: Cursor)
    requires Sorted(log) && Covers(log, a, b, cursor) && a < b
    requires ReplayStart(log, cursor) <= cut <= |log|
    ensures Filter(cursor, log[ReplayStart(log, cursor)..cut]) == (if b <= cut then log[b..cut] else [])
      <==> Resumable(log, b, cut, cursor)
  {
    hide Sorted, Filter, Passes, ReplayStart;
    assert cursor.time.Some?;
    hide Covers;
    var s, mid := ReplayStart(log, cursor), if b <= cut then b else cut;
    ReplaySplits(log, a, b, cut, cursor);
    OldLinesStop(log, a, b, mid, cursor);
    NewLinesPass(log, a, b, mid, cut, cursor);
    OnlyNewIff(cursor, log[s..cut], log[s..mid], log[mid..cut]);
    assert b > cut ==> log[mid..cut] == [];
  }

  /** Distinct lines and a first tail that starts with a whole group make every reconnect resumable. */
  lemma WholeGroupsResume(log: seq<Logged>, a: nat, b: nat, cut: nat, cursor: Cursor)
    requires Sorted(log) && Distinct(log) && WholeGroup(log, a)
    requires Covers(log, a, b, cursor) && a < b && cut <= |log|
    ensures Resumable(log, b, cut, cursor)
  {}

  // ---- any number of connections ---------------------------------------------------------------

  /** One connection: the log when it was opened and when it ended, and where it
      was cut.  It follows the log, so it may deliver any number of new lines. */
  datatype Connection = Connection(backlog: seq<Logged>, log: seq<Logged>, cut: nat)

  datatype Progress = Progress(cursor: Cursor, published: seq<Logged>)

  /** Docker looks for `since` in all of the log, but counts the tail when the connection is opened. */
  function Start(connection: Connection, cursor: Cursor): nat {
    ReplayStart(if cursor.time.Some? then connection.log else connection.backlog, cursor)
  }

  /** Each connection replays from its start to its cut; a cut before the start delivers nothing. */
  function Delivered(connection: Connection, cursor: Cursor): seq<Logged> {
    var s := Start(connection, cursor);
    if s <= connection.cut <= |connection.log| then connection.log[s..connection.cut] else []
  }

  function Reads(connections: seq<Connection>): Progress {
    if connections == [] then Progress(START, []) else
      var before := Reads(connections[..|connections| - 1]);
      var passed := Filter(before.cursor, Delivered(connections[|connections| - 1], before.cursor));
      Progress(Follow(before.cursor, passed), before.published + passed)
  }

  /** The log only grows, and a reader without a cursor starts at a whole group. */
  ghost predicate Admissible(connections: seq<Connection>, log: seq<Logged>) {
    && Sorted(log) && Distinct(log)
    && (forall i :: 0 <= i < |connections| ==> connections[i].backlog <= connections[i].log <= log)
    && (forall i :: 0 <= i < |connections| && Reads(connections[..i]).cursor.time.None? ==>
      WholeGroup(connections[i].backlog, Start(connections[i], START)))
  }

  lemma AdmissiblePrefix(connections: seq<Connection>, log: seq<Logged>)
    requires connections != [] && Admissible(connections, log)
    ensures Admissible(connections[..|connections| - 1], log)
    ensures var last := connections[|connections| - 1];
      && Sorted(log) && Distinct(log) && last.backlog <= last.log <= log
      && (Reads(connections[..|connections| - 1]).cursor.time.None? ==> WholeGroup(last.backlog, Start(last, START)))
  {
    hide Reads, WholeGroup, Start, Sorted, Distinct;
    var earlier := connections[..|connections| - 1];
    forall i | 0 <= i < |earlier| && Reads(earlier[..i]).cursor.time.None?
      ensures WholeGroup(earlier[i].backlog, Start(earlier[i], START))
    {
      assert earlier[..i] == connections[..i];
    }
  }

  /** The first connection that delivers anything starts the stretch, and may follow the log for long. */
  lemma FirstRead(connection: Connection, log: seq<Logged>)
    requires Sorted(log) && connection.backlog <= connection.log <= log
    requires Start(connection, START) <= connection.cut <= |connection.log|
    requires WholeGroup(connection.backlog, Start(connection, START))
    ensures var s := Start(connection, START);
      var passed := Filter(START, Delivered(connection, START));
      && passed == log[s..connection.cut] && Covers(log, s, connection.cut, Follow(START, passed))
      && (s < connection.cut ==> WholeGroup(log, s))
  {
    hide Sorted, Filter, Follow, ReplayStart;
    var s := Start(connection, START);
    SamePart(connection.log, log, s, connection.cut);
    FilterMeaning(START, log[s..connection.cut]);
    assert Covers(log, s, s, START);
    hide Covers;
    FollowCovers(log, s, s, connection.cut, START);
    SameGroup(connection.backlog, log, s);
  }

  lemma SamePart(part: seq<Logged>, log: seq<Logged>, i: nat, j: nat)
    requires part <= log && i <= j <= |part|
    ensures part[i..j] == log[i..j]
  {}

  lemma SameGroup(part: seq<Logged>, log: seq<Logged>, a: nat)
    requires part <= log && WholeGroup(part, a) && a == ReplayStart(part, START)
    ensures WholeGroup(log, a)
  {}

  /** Over any number of connections, each cut at any line boundary, what has
      been published is one contiguous stretch of the log: no gap, no repeat. */
  lemma {:induction false} ResumeIsLossless(connections: seq<Connection>, log: seq<Logged>) returns (a: nat, b: nat)
    requires Admissible(connections, log)
    ensures Covers(log, a, b, Reads(connections).cursor) && a <= b <= |log|
    ensures Reads(connections).published == log[a..b]
    ensures a < b ==> WholeGroup(log, a)
  {
    if connections == [] {
      return 0, 0;
    }
    hide Distinct, Sorted, Filter, Admissible, WholeGroup, Follow, Covers, Start;
    AdmissiblePrefix(connections, log);
    a, b := ResumeIsLossless(connections[..|connections| - 1], log);
    a, b := ReadOnce(connections[|connections| - 1], log, a, b, Reads(connections[..|connections| - 1]));
  }

  /** One more connection extends the stretch. */
  lemma ReadOnce(connection: Connection, log: seq<Logged>, a0: nat, b0: nat, before: Progress) returns (a: nat, b: nat)
    requires Sorted(log) && Distinct(log) && connection.backlog <= connection.log <= log
    requires Covers(log, a0, b0, before.cursor) && before.published == log[a0..b0] && (a0 < b0 ==> WholeGroup(log, a0))
    requires before.cursor.time.None? ==> WholeGroup(connection.backlog, Start(connection, START))
    ensures var passed := Filter(before.cursor, Delivered(connection, before.cursor));
      && Covers(log, a, b, Follow(before.cursor, passed))
      && before.published + passed == log[a..b]
      && (a < b ==> WholeGroup(log, a))
  {
    hide Distinct, Sorted, Follow, Start;
    a, b := a0, b0;
    var s := Start(connection, before.cursor);
    if !(s <= connection.cut <= |connection.log|) {
      assert Follow(before.cursor, []) == before.cursor by { FollowNothing(before.cursor); }
      return;
    }
    if a0 == b0 {
      FirstRead(connection, log);
      return s, connection.cut;
    }
    ResumeOnce(connection, log, a0, b0, before.cursor);
    if b0 <= connection.cut {
      FollowCovers(log, a0, b0, connection.cut, before.cursor);
      assert log[a0..b0] + log[b0..connection.cut] == log[a0..connection.cut];
      b := connection.cut;
    } else {
      FollowNothing(before.cursor);
    }
  }

  lemma FollowNothing(cursor: Cursor)
    ensures Follow(cursor, []) == cursor
  {}

  /** A reader that has a cursor resumes correctly even from a log that has grown since. */
  lemma ResumeOnce(connection: Connection, log: seq<Logged>, a: nat, b: nat, cursor: Cursor)
    requires Sorted(log) && Distinct(log) && connection.log <= log && WholeGroup(log, a)
    requires Covers(log, a, b, cursor) && a < b
    requires Start(connection, cursor) <= connection.cut <= |connection.log|
    ensures Filter(cursor, Delivered(connection, cursor)) == if b <= connection.cut then log[b..connection.cut] else []
  {
    var part := connection.log;
    var s := ReplayStart(part, cursor);
    assert cursor.time.Some? && Start(connection, cursor) == s;
    hide Distinct, Sorted, Filter, WholeGroup, Resumable, ReplayStart, Covers;
    ReplayReachesBack(log, a, b, cursor);
    SameStart(part, log, cursor);
    if s != ReplayStart(log, cursor) {
      assert Delivered(connection, cursor) == [];
      FilterMeaning(cursor, []);
      return;
    }
    WholeGroupsResume(log, a, b, connection.cut, cursor);
    ResumesIff(log, a, b, connection.cut, cursor);
    SamePart(part, log, s, connection.cut);
  }

  lemma SameStart(part: seq<Logged>, log: seq<Logged>, cursor: Cursor)
    requires part <= log && cursor.time.Some?
    ensures ReplayStart(part, cursor) == ReplayStart(log, cursor) || ReplayStart(part, cursor) == |part|
  {}

  // ---- a first tail inside a group -------------------------------------------------------------

  /** One line more than the first tail holds; the first two share a timestamp. */
  function SplitLog(x: Line, y: Line): (log: seq<Logged>)
    ensures |log| == FIRST_TAIL + 1 && log[0] == Logged(7, x) && log[1] == Logged(7, y)
    ensures forall k :: 2 <= k < |log| ==> log[k] == Logged(6 + k, x)
  {
    [Logged(7, x), Logged(7, y)] + seq(FIRST_TAIL - 1, k requires 0 <= k => Logged(8 + k, x))
  }

  /** A first tail that starts inside a group of equal timestamps: a reader that
      is cut after its first line publishes the older line after it. */
  lemma SplitGroupRepeatsAnOlderLine(x: Line, y: Line)
    requires x != y
    ensures var log := SplitLog(x, y);
      var first, second := Connection(log, log, 2), Connection(log, log, 1);
      && Sorted(log) && Distinct(log) && !WholeGroup(log, Start(first, START))
      && Reads([first]).published == [Logged(7, y)]
      && Reads([first, second]).published == [Logged(7, y), Logged(7, x)]
  {
    hide Delivered, Sorted, Distinct, WholeGroup, Start, SplitLog;
    var log := SplitLog(x, y);
    SplitDeliveries(x, y);
    TwoReads(Connection(log, log, 2), Connection(log, log, 1), Logged(7, y), Logged(7, x));
  }

  lemma TwoReads(first: Connection, second: Connection, p: Logged, q: Logged)
    requires Delivered(first, START) == [p]
    requires var cursor := Cursor(Some(p.time), {p.line}); Delivered(second, cursor) == [q] && Passes(cursor, q)
    ensures Reads([first]).published == [p]
    ensures Reads([first, second]).published == [p, q]
  {
    hide Delivered, Filter, Follow, Reads;
    OneLine(START, p);
    OneMore([], first);
    assert [] + [first] == [first];
    OneLine(Cursor(Some(p.time), {p.line}), q);
    OneMore([first], second);
    assert [first] + [second] == [first, second];
  }

  lemma SplitDeliveries(x: Line, y: Line)
    requires x != y
    ensures var log, cursor := SplitLog(x, y), Cursor(Some(7), {y});
      && Sorted(log) && Distinct(log) && !WholeGroup(log, Start(Connection(log, log, 2), START))
      && Delivered(Connection(log, log, 2), START) == [Logged(7, y)]
      && Delivered(Connection(log, log, 1), cursor) == [Logged(7, x)]
  {
    hide SplitLog;
    var log := SplitLog(x, y);
    assert log[1..2] == [log[1]] && log[0..1] == [log[0]];
  }

  lemma OneMore(connections: seq<Connection>, connection: Connection)
    ensures Reads([]) == Progress(START, [])
    ensures var before := Reads(connections);
      var passed := Filter(before.cursor, Delivered(connection, before.cursor));
      Reads(connections + [connection]) == Progress(Follow(before.cursor, passed), before.published + passed)
  {
    hide Filter, Follow, Delivered;
    assert (connections + [connection])[..|connections|] == connections;
  }

  lemma OneLine(cursor: Cursor, entry: Logged)
    ensures Filter(cursor, [entry]) == if Passes(cursor, entry) then [entry] else []
    ensures Follow(cursor, [entry]) == Advance(cursor, entry)
  {
    assert [entry][..0] == [];
  }
}
