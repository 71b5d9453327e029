/** Splitting Docker's output chunks into bounded lines (src/grpc/services/console/decoder.rs).

    `LineBuffer` sees one byte at a time and never more of a line than the
    configured maximum.  `Decode` is the reference: it splits the whole stream
    at CRLF, CR or LF and then cuts each line.  A decoded line is kept as its
    bytes and its truncation mark; lossy UTF-8 decoding is not modelled. */
module LineDecoder {
  import opened Machine
  import opened Sequences

  const CR: byte := 13
  const LF: byte := 10

  /** The bytes of a line, and whether the truncation suffix is appended. */
  datatype Text = Text(bytes: seq<byte>, truncated: bool)

  // ---- reference: split the whole stream, then cut --------------------------------------

  function FirstBreak(stream: seq<byte>): (k: nat)
    ensures k <= |stream|
    ensures 13 !in stream[..k] && 10 !in stream[..k]
    ensures k < |stream| ==> stream[k] == 13 || stream[k] == 10
  {
    if stream == [] || stream[0] == 13 || stream[0] == 10 then 0 else 1 + FirstBreak(stream[1..])
  }

  /** The length of the line break at `k`; a CR swallows the LF behind it. */
  function BreakLength(stream: seq<byte>, k: nat): (length: nat)
    requires k < |stream|
    ensures 1 <= length <= |stream| - k
  {
    if stream[k] == 13 && k + 1 < |stream| && stream[k + 1] == 10 then 2 else 1
  }

  /** The terminated lines of a stream. */
  function Lines(stream: seq<byte>): seq<seq<byte>> {
    var k := FirstBreak(stream);
    if k == |stream| then [] else [stream[..k]] + Lines(stream[k + BreakLength(stream, k)..])
  }

  /** What follows the last line break. */
  function Rest(stream: seq<byte>): seq<byte> {
    var k := FirstBreak(stream);
    if k == |stream| then stream else Rest(stream[k + BreakLength(stream, k)..])
  }

  function Cut(line: seq<byte>, maximum: nat): Text {
    if |line| <= maximum then Text(line, false) else Text(line[..maximum], true)
  }

  function CutAll(lines: seq<seq<byte>>, maximum: nat): (texts: seq<Text>)
    ensures |texts| == |lines| && forall i :: 0 <= i < |lines| ==> texts[i] == Cut(lines[i], maximum)
  {
    seq(|lines|, i requires 0 <= i < |lines| => Cut(lines[i], maximum))
  }

  function Decode(stream: seq<byte>, maximum: nat): seq<Text> {
    CutAll(Lines(stream), maximum) + if Rest(stream) == [] then [] else [Cut(Rest(stream), maximum)]
  }

  // ---- the buffer ---------------------------------------------------------------------------

  datatype Buffer = Buffer(bytes: seq<byte>, truncated: bool, swallow: bool)

  const EMPTY: Buffer := Buffer([], false, false)

  datatype Fed = Fed(buffer: Buffer, lines: seq<Text>)

  /** One byte. */
  function Feed(buffer: Buffer, b: byte, maximum: nat): Fed {
    if buffer.swallow && b == LF then Fed(buffer.(swallow := false), [])
    else if b == CR then Fed(Buffer([], false, true), [Text(buffer.bytes, buffer.truncated)])
    else if b == LF then Fed(Buffer([], false, false), [Text(buffer.bytes, buffer.truncated)])
    else if |buffer.bytes| < maximum then Fed(Buffer(buffer.bytes + [b], buffer.truncated, false), [])
    else Fed(Buffer(buffer.bytes, true, false), [])
  }

  function FeedAll(buffer: Buffer, chunk: seq<byte>, maximum: nat): Fed {
    if chunk == [] then Fed(buffer, []) else
      var before := FeedAll(buffer, chunk[..|chunk| - 1], maximum);
      var last := Feed(before.buffer, chunk[|chunk| - 1], maximum);
      Fed(last.buffer, before.lines + last.lines)
  }

  function Finish(buffer: Buffer): seq<Text> {
    if buffer.bytes == [] && !buffer.truncated then [] else [Text(buffer.bytes, buffer.truncated)]
  }

  class LineBuffer {
    var bytes: seq<byte>
    var truncated: bool
    var swallowLineFeed: bool

    ghost function State(): Buffer
      reads this
    {
      Buffer(bytes, truncated, swallowLineFeed)
    }

    constructor ()
      ensures State() == EMPTY
    {
      bytes, truncated, swallowLineFeed := [], false, false;
    }

    method Push(chunk: seq<byte>, maximum: nat) returns (lines: seq<Text>)
      modifies this
      ensures Fed(State(), lines) == FeedAll(old(State()), chunk, maximum)
    {
      lines := [];
      for i := 0 to |chunk|
        invariant Fed(State(), lines) == FeedAll(old(State()), chunk[..i], maximum)
      {
        var b := chunk[i];
        assert chunk[..i + 1][..i] == chunk[..i];
        if swallowLineFeed {
          swallowLineFeed := false;
          if b == LF {
            continue;
          }
        }
        if b == CR {
          var line := TakeLine();
          lines := lines + [line];
          swallowLineFeed := true;
        } else if b == LF {
          var line := TakeLine();
          lines := lines + [line];
        } else if |bytes| < maximum {
          bytes := bytes + [b];
        } else {
          truncated := true;
        }
      }
      assert chunk[..|chunk|] == chunk;
    }

    method TakeLine() returns (line: Text)
      modifies this`bytes, this`truncated
      ensures line == Text(old(bytes), old(truncated))
      ensures bytes == [] && !truncated
    {
      line := Text(bytes, truncated);
      bytes, truncated := [], false;
    }

    method FinishLines() returns (lines: seq<Text>)
      modifies this
      ensures lines == Finish(old(State()))
    {
      if bytes == [] && !truncated {
        return [];
      }
      var line := TakeLine();
      return [line];
    }
  }

  // ---- the buffer computes the reference -------------------------------------------------------

  lemma {:induction false} FeedAllAppend(buffer: Buffer, a: seq<byte>, b: seq<byte>, maximum: nat)
    ensures var first := FeedAll(buffer, a, maximum);
      var second := FeedAll(first.buffer, b, maximum);
      FeedAll(buffer, a + b, maximum) == Fed(second.buffer, first.lines + second.lines)
  {
    if b == [] {
      assert a + b == a;
    } else {
      FeedAllAppend(buffer, a, b[..|b| - 1], maximum);
      assert (a + b)[..|a + b| - 1] == a + b[..|b| - 1];
      hide Feed;
      var first := FeedAll(buffer, a, maximum);
      var second := FeedAll(first.buffer, b[..|b| - 1], maximum);
      Regroup(first.lines, second.lines, Feed(second.buffer, b[|b| - 1], maximum).lines);
    }
  }

  lemma {:induction false} FeedOneMore(buffer: Buffer, init: seq<byte>, b: byte, maximum: nat)
    ensures var before := FeedAll(buffer, init, maximum);
      var last := Feed(before.buffer, b, maximum);
      FeedAll(buffer, init + [b], maximum) == Fed(last.buffer, before.lines + last.lines)
    ensures FeedAll(buffer, [], maximum) == Fed(buffer, [])
  {}

  /** A pending swallow does not matter to a byte that is no line feed. */
  lemma {:induction false} FirstByte(buffer: Buffer, b: byte, maximum: nat)
    requires buffer.bytes == [] && !buffer.truncated && (buffer.swallow ==> b != LF)
    ensures Feed(buffer, b, maximum) == Feed(Holding(Text([], false)), b, maximum)
  {}

  /** Bytes without a break only fill the buffer. */
  lemma {:induction false} FeedPlain(buffer: Buffer, plain: seq<byte>, maximum: nat)
    requires CR !in plain && LF !in plain && plain != []
    requires buffer.bytes == [] && !buffer.truncated
    ensures FeedAll(buffer, plain, maximum) == Fed(Holding(Cut(plain, maximum)), [])
    decreases |plain|
  {
    hide Cut, FeedAll, Feed;
    var init, last := plain[..|plain| - 1], plain[|plain| - 1];
    assert last in plain && forall b :: b in init ==> b in plain;
    assert plain == init + [last];
    CutGrows(init, last, maximum);
    FeedOneMore(buffer, init, last, maximum);
    if init == [] {
      FirstByte(buffer, last, maximum);
    } else {
      FeedPlain(buffer, init, maximum);
    }
  }

  /** The buffer that holds a line so far. */
  function Holding(line: Text): Buffer {
    Buffer(line.bytes, line.truncated, false)
  }

  /** One more byte of a line goes into the buffer, or marks it truncated. */
  lemma CutGrows(init: seq<byte>, last: byte, maximum: nat)
    requires last != CR && last != LF
    ensures Feed(Holding(Cut(init, maximum)), last, maximum) == Fed(Holding(Cut(init + [last], maximum)), [])
    ensures Cut([], maximum) == Text([], false)
  {}

  /** The unterminated end of a stream stays in the buffer until `finish`. */
  lemma {:induction false} FeedRest(buffer: Buffer, stream: seq<byte>, maximum: nat)
    requires buffer.bytes == [] && !buffer.truncated && FirstBreak(stream) == |stream|
    ensures FeedAll(buffer, stream, maximum).lines == CutAll(Lines(stream), maximum)
    ensures Finish(FeedAll(buffer, stream, maximum).buffer) == if Rest(stream) == [] then [] else [Cut(Rest(stream), maximum)]
  {
    assert stream[..|stream|] == stream;
    if stream != [] { FeedPlain(buffer, stream, maximum); }
  }

  lemma {:induction false} SplitStep(stream: seq<byte>, k: nat, maximum: nat)
    requires k == FirstBreak(stream) && k < |stream|
    ensures var tail := stream[k + BreakLength(stream, k)..];
      CutAll(Lines(stream), maximum) == [Cut(stream[..k], maximum)] + CutAll(Lines(tail), maximum)
      && Rest(stream) == Rest(tail)
  {
    var tail := stream[k + BreakLength(stream, k)..];
    assert Lines(stream) == [stream[..k]] + Lines(tail);
    hide Lines, Rest, FirstBreak, BreakLength, Cut;
    CutAllPrepends(stream[..k], Lines(tail), maximum);
    assert Rest(stream) == Rest(tail) by { RestStep(stream, k); }
  }

  lemma RestStep(stream: seq<byte>, k: nat)
    requires k == FirstBreak(stream) && k < |stream|
    ensures Rest(stream) == Rest(stream[k + BreakLength(stream, k)..])
  {
    hide FirstBreak, BreakLength;
  }

  lemma CutAllPrepends(line: seq<byte>, lines: seq<seq<byte>>, maximum: nat)
    ensures CutAll([line] + lines, maximum) == [Cut(line, maximum)] + CutAll(lines, maximum)
  {}

  /** A fresh buffer turns a stream into its reference lines, with the rest in the buffer. */
  lemma {:induction false} FeedIsSplit(buffer: Buffer, stream: seq<byte>, maximum: nat)
    requires buffer.bytes == [] && !buffer.truncated
    requires buffer.swallow ==> stream == [] || stream[0] != LF
    ensures var fed := FeedAll(buffer, stream, maximum);
      && fed.lines == CutAll(Lines(stream), maximum)
      && Finish(fed.buffer) == if Rest(stream) == [] then [] else [Cut(Rest(stream), maximum)]
    decreases |stream|
  {
    hide FeedAll, Lines, Rest, CutAll, Cut, Finish, BreakLength;
    var k := FirstBreak(stream);
    if k == |stream| {
      FeedRest(buffer, stream, maximum);
    } else {
      var length := BreakLength(stream, k);
      var head, tail := stream[..k + length], stream[k + length..];
      assert stream == head + tail;
      FeedBreak(buffer, stream, k, maximum);
      FeedAllAppend(buffer, head, tail, maximum);
      FeedIsSplit(FeedAll(buffer, head, maximum).buffer, tail, maximum);
      SplitStep(stream, k, maximum);
    }
  }

  /** The bytes up to and including a break yield exactly one line. */
  lemma {:induction false} FeedBreak(buffer: Buffer, stream: seq<byte>, k: nat, maximum: nat)
    requires buffer.bytes == [] && !buffer.truncated && k == FirstBreak(stream) && k < |stream|
    requires buffer.swallow ==> stream[0] != LF
    ensures var length := BreakLength(stream, k);
      var fed := FeedAll(buffer, stream[..k + length], maximum);
      && fed.lines == [Cut(stream[..k], maximum)]
      && fed.buffer.bytes == [] && !fed.buffer.truncated
      && (fed.buffer.swallow ==> k + length == |stream| || stream[k + length] != LF)
  {
    hide FirstBreak, FeedAll, Feed, Cut;
    var line := Cut(stream[..k], maximum);
    FeedUpToBreak(buffer, stream[..k], stream[k], maximum);
    assert stream[..k + 1] == stream[..k] + [stream[k]];
    if BreakLength(stream, k) == 2 {
      FeedOneMore(buffer, stream[..k + 1], LF, maximum);
      SwallowedFeed(maximum);
      assert stream[..k + 2] == stream[..k + 1] + [LF];
    }
  }

  lemma SwallowedFeed(maximum: nat)
    ensures Feed(Buffer([], false, true), LF, maximum) == Fed(EMPTY, [])
  {}

  lemma {:induction false} FeedUpToBreak(buffer: Buffer, plain: seq<byte>, b: byte, maximum: nat)
    requires buffer.bytes == [] && !buffer.truncated && CR !in plain && LF !in plain && (b == CR || b == LF)
    requires plain == [] && buffer.swallow ==> b != LF
    ensures FeedAll(buffer, plain + [b], maximum) == Fed(Buffer([], false, b == CR), [Cut(plain, maximum)])
  {
    FeedOneMore(buffer, plain, b, maximum);
    if plain != [] { FeedPlain(buffer, plain, maximum); }
    hide FeedAll;
  }

  // ---- any chunking, any interleaving ---------------------------------------------------------------

  datatype Source = StdOut | StdErr | Console | StdIn

  /** One decoder per stream; what is echoed on stdin is ignored. */
  datatype Decoder = Decoder(stdout: Buffer, stderr: Buffer, console: Buffer)

  datatype Chunk = Chunk(source: Source, bytes: seq<byte>)

  function BufferOf(decoder: Decoder, source: Source): Buffer {
    match source case StdOut => decoder.stdout case StdErr => decoder.stderr case Console => decoder.console case StdIn => EMPTY
  }

  function WithBuffer(decoder: Decoder, source: Source, buffer: Buffer): Decoder {
    match source
    case StdOut => decoder.(stdout := buffer)
    case StdErr => decoder.(stderr := buffer)
    case Console => decoder.(console := buffer)
    case StdIn => decoder
  }

  datatype Decoded = Decoded(decoder: Decoder, lines: seq<(Source, seq<Text>)>)

  /** One push: the decoder of its stream takes the bytes, `stdin` is ignored. */
  function PushOne(before: Decoded, chunk: Chunk, maximum: nat): Decoded {
    if chunk.source.StdIn? then Decoded(before.decoder, before.lines + [(chunk.source, [])]) else
      var fed := FeedAll(BufferOf(before.decoder, chunk.source), chunk.bytes, maximum);
      Decoded(WithBuffer(before.decoder, chunk.source, fed.buffer), before.lines + [(chunk.source, fed.lines)])
  }

  /** The pushes of a connection, and the lines each of them returned. */
  function PushAll(chunks: seq<Chunk>, maximum: nat): Decoded {
    if chunks == [] then Decoded(Decoder(EMPTY, EMPTY, EMPTY), []) else
      PushOne(PushAll(chunks[..|chunks| - 1], maximum), chunks[|chunks| - 1], maximum)
  }

  /** What one stream delivered in all. */
  function Stream(chunks: seq<Chunk>, source: Source): seq<byte> {
    if chunks == [] then [] else
      Stream(chunks[..|chunks| - 1], source) + Contribution(chunks[|chunks| - 1], source)
  }

  /** The lines one stream contributed, in order. */
  function LinesOf(pushes: seq<(Source, seq<Text>)>, source: Source): seq<Text> {
    if pushes == [] then [] else
      LinesOf(pushes[..|pushes| - 1], source) + if pushes[|pushes| - 1].0 == source then pushes[|pushes| - 1].1 else []
  }

  lemma LinesOfPush(pushes: seq<(Source, seq<Text>)>, push: (Source, seq<Text>), source: Source)
    ensures LinesOf(pushes + [push], source) == LinesOf(pushes, source) + if push.0 == source then push.1 else []
  {}

  function Contribution(chunk: Chunk, source: Source): seq<byte> {
    if chunk.source == source then chunk.bytes else []
  }

  lemma PushOneDecodes(before: Decoded, chunk: Chunk, source: Source, stream: seq<byte>, maximum: nat)
    requires !source.StdIn?
    requires Fed(BufferOf(before.decoder, source), LinesOf(before.lines, source)) == FeedAll(EMPTY, stream, maximum)
    ensures var after := PushOne(before, chunk, maximum);
      Fed(BufferOf(after.decoder, source), LinesOf(after.lines, source)) == FeedAll(EMPTY, stream + Contribution(chunk, source), maximum)
  {
    hide FeedAll, LinesOf;
    LinesOfPush(before.lines, PushOne(before, chunk, maximum).lines[|before.lines|], source);
    if chunk.source == source {
      FeedAllAppend(EMPTY, stream, chunk.bytes, maximum);
    } else {
      AppendNothing(LinesOf(before.lines, source));
      AppendNothing(stream);
    }
  }

  lemma {:induction false} ChunkingIsInvisible(chunks: seq<Chunk>, source: Source, maximum: nat)
    requires !source.StdIn?
    ensures var decoded := PushAll(chunks, maximum);
      Fed(BufferOf(decoded.decoder, source), LinesOf(decoded.lines, source)) == FeedAll(EMPTY, Stream(chunks, source), maximum)
  {
    if chunks == [] {
      assert LinesOf([], source) == [];
    } else {
      var earlier := chunks[..|chunks| - 1];
      ChunkingIsInvisible(earlier, source, maximum);
      PushOneDecodes(PushAll(earlier, maximum), chunks[|chunks| - 1], source, Stream(earlier, source), maximum);
      hide FeedAll, PushOne, LinesOf;
    }
  }

  /** However a connection's output was cut into chunks and its streams were
      interleaved, each stream decodes to the reference lines of its bytes. */
  lemma DecodingRefinesSplitting(chunks: seq<Chunk>, source: Source, maximum: nat)
    requires !source.StdIn?
    ensures var decoded := PushAll(chunks, maximum);
      LinesOf(decoded.lines, source) + Finish(BufferOf(decoded.decoder, source)) == Decode(Stream(chunks, source), maximum)
  {
    ChunkingIsInvisible(chunks, source, maximum);
    FeedIsSplit(EMPTY, Stream(chunks, source), maximum);
  }

  class ConsoleOutputDecoder {
    const stdout: LineBuffer
    const stderr: LineBuffer
    const console: LineBuffer

    ghost predicate Valid() {
      stdout != stderr && stdout != console && stderr != console
    }

    ghost function State(): Decoder
      reads stdout, stderr, console
    {
      Decoder(stdout.State(), stderr.State(), console.State())
    }

    constructor ()
      ensures Valid() && State() == Decoder(EMPTY, EMPTY, EMPTY)
      ensures fresh(stdout) && fresh(stderr) && fresh(console)
    {
      stdout := new LineBuffer();
      stderr := new LineBuffer();
      console := new LineBuffer();
    }

    method Push(output: Chunk, maximum: nat) returns (lines: seq<Text>)
      requires Valid()
      modifies stdout, stderr, console
      ensures output.source.StdIn? ==> lines == [] && State() == old(State())
      ensures !output.source.StdIn? ==>
        var fed := FeedAll(BufferOf(old(State()), output.source), output.bytes, maximum);
        lines == fed.lines && State() == WithBuffer(old(State()), output.source, fed.buffer)
    {
      match output.source
      case StdOut => lines := stdout.Push(output.bytes, maximum);
      case StdErr => lines := stderr.Push(output.bytes, maximum);
      case Console => lines := console.Push(output.bytes, maximum);
      case StdIn => lines := [];
    }

    method FinishLines() returns (lines: seq<Text>)
      requires Valid()
      modifies stdout, stderr, console
      ensures lines == Finish(old(State()).stdout) + Finish(old(State()).stderr) + Finish(old(State()).console)
    {
      lines := stdout.FinishLines();
      var more := stderr.FinishLines();
      lines := lines + more;
      more := console.FinishLines();
      lines := lines + more;
    }
  }
}
