/** The encrypted backup format (src/storage/backup/crypto.rs).

    A file is a magic, a random nonce prefix, one length-prefixed frame per
    chunk read from the source, and a zero length.  The cipher is abstract:
    decryption inverts encryption for the same key, nonce and associated data,
    and a ciphertext is 16 bytes longer than its plaintext. */
module BackupCrypto {
  import opened Machine
  import opened Wrappers
  import opened Sequences

  const MAGIC: seq<byte> := [65, 71, 80, 66, 75, 48, 49, 0]   // "AGPBK01\0"
  const PREFIX_LENGTH: nat := 8
  const TAG_LENGTH: nat := 16
  const CHUNK_LIMIT: nat := 4 * 1024 * 1024

  type Bytes = seq<byte>

  /** Key, nonce, associated data, message. */
  datatype Cipher = Cipher(
    encrypt: (Bytes, Bytes, Bytes, Bytes) -> Bytes,
    decrypt: (Bytes, Bytes, Bytes, Bytes) -> Option<Bytes>)

  ghost predicate Sound(cipher: Cipher) {
    forall key: Bytes, nonce: Bytes, aad: Bytes, message: Bytes ::
      var ciphertext := cipher.encrypt(key, nonce, aad, message);
      |ciphertext| == |message| + TAG_LENGTH && cipher.decrypt(key, nonce, aad, ciphertext) == Some(message)
  }

  datatype Error = UnexpectedEnd | InvalidHeader | InvalidChunk | Unauthentic | TooManyChunks

  // ---- numbers ------------------------------------------------------------------------

  /** `u32::to_be_bytes` */
  function BigEndian(n: nat): (bytes: Bytes)
    requires n <= U32_MAX
    ensures |bytes| == 4
  {
    [(n / 0x100_0000) as byte, (n / 0x1_0000 % 0x100) as byte, (n / 0x100 % 0x100) as byte, (n % 0x100) as byte]
  }

  function FromBigEndian(bytes: Bytes): (n: nat)
    requires |bytes| == 4
    ensures n <= U32_MAX
  {
    bytes[0] as nat * 0x100_0000 + bytes[1] as nat * 0x1_0000 + bytes[2] as nat * 0x100 + bytes[3] as nat
  }

  lemma BigEndianRoundTrip(n: nat)
    requires n <= U32_MAX
    ensures FromBigEndian(BigEndian(n)) == n
  {
    assert n == n / 0x100 * 0x100 + n % 0x100;
    assert n / 0x100 == n / 0x1_0000 * 0x100 + n / 0x100 % 0x100;
    assert n / 0x1_0000 == n / 0x100_0000 * 0x100 + n / 0x1_0000 % 0x100;
  }

  // ---- the format -----------------------------------------------------------------------

  function Nonce(prefix: Bytes, counter: nat): Bytes
    requires counter <= U32_MAX
  {
    prefix + BigEndian(counter)
  }

  function Frame(cipher: Cipher, key: Bytes, prefix: Bytes, counter: nat, chunk: Bytes): Bytes
    requires counter <= U32_MAX && |chunk| <= CHUNK_LIMIT
  {
    BigEndian(|chunk|) + cipher.encrypt(key, Nonce(prefix, counter), BigEndian(counter), chunk)
  }

  /** What `read` may return before the end of the file: never more than the buffer holds. */
  ghost predicate Chunks(chunks: seq<Bytes>) {
    forall i :: 0 <= i < |chunks| ==> 0 < |chunks[i]| <= CHUNK_LIMIT
  }

  function Plain(chunks: seq<Bytes>): Bytes {
    if chunks == [] then [] else chunks[0] + Plain(chunks[1..])
  }

  function Frames(cipher: Cipher, key: Bytes, prefix: Bytes, counter: nat, chunks: seq<Bytes>): Bytes
    requires Chunks(chunks) && counter + |chunks| <= U32_MAX + 1
    decreases |chunks|
  {
    if chunks == [] then [] else
      Frame(cipher, key, prefix, counter, chunks[0]) + Frames(cipher, key, prefix, counter + 1, chunks[1..])
  }

  function Encoded(cipher: Cipher, key: Bytes, prefix: Bytes, chunks: seq<Bytes>): Bytes
    requires Chunks(chunks) && |chunks| <= U32_MAX
  {
    MAGIC + prefix + (Frames(cipher, key, prefix, 0, chunks) + BigEndian(0))
  }

  lemma {:induction false} FramesAppend(cipher: Cipher, key: Bytes, prefix: Bytes, counter: nat, chunks: seq<Bytes>, chunk: Bytes)
    requires Chunks(chunks + [chunk]) && counter + |chunks| <= U32_MAX
    ensures Chunks(chunks) && |chunk| <= CHUNK_LIMIT
    ensures Frames(cipher, key, prefix, counter, chunks + [chunk])
      == Frames(cipher, key, prefix, counter, chunks) + Frame(cipher, key, prefix, counter + |chunks|, chunk)
    decreases |chunks|
  {
    var all := chunks + [chunk];
    assert all[|chunks|] == chunk;
    forall i | 0 <= i < |chunks| ensures 0 < |chunks[i]| <= CHUNK_LIMIT { assert all[i] == chunks[i]; }
    if chunks == [] {
      assert all[1..] == [];
    } else {
      assert all[1..] == chunks[1..] + [chunk];
      FramesAppend(cipher, key, prefix, counter + 1, chunks[1..], chunk);
    }
  }

  /** The nonces of an encryption of `n` chunks, in the order of their use; the
      counter is checked after each chunk, so that the 2^32nd is still encrypted. */
  function Nonces(prefix: Bytes, n: nat): (nonces: seq<Bytes>)
    ensures |nonces| == Min(n, U32_MAX + 1)
  {
    seq(Min(n, U32_MAX + 1), i requires 0 <= i <= U32_MAX => Nonce(prefix, i))
  }

  lemma NoncesGrow(prefix: Bytes, n: nat)
    requires n <= U32_MAX
    ensures Nonces(prefix, 0) == []
    ensures Nonces(prefix, n + 1) == Nonces(prefix, n) + [Nonce(prefix, n)]
  {}

  lemma NoncesEnd(prefix: Bytes, n: nat)
    requires n > U32_MAX
    ensures Nonces(prefix, n) == Nonces(prefix, U32_MAX + 1)
  {}

  /** `encrypt_file_blocking`; `nonces` collects what the cipher was called with. */
  method EncryptFile(cipher: Cipher, key: Bytes, prefix: Bytes, chunks: seq<Bytes>)
    returns (result: Result<Bytes, Error>, ghost nonces: seq<Bytes>)
    requires Chunks(chunks)
    ensures nonces == Nonces(prefix, |chunks|)
    ensures result == if |chunks| <= U32_MAX then Success(Encoded(cipher, key, prefix, chunks)) else Failure(TooManyChunks)
  {
    hide Nonces, BigEndian, Nonce;
    var file := MAGIC + prefix;
    nonces := [];
    NoncesGrow(prefix, 0);
    var counter: nat := 0;
    while counter < |chunks|
      invariant counter <= |chunks| && counter <= U32_MAX
      invariant Chunks(chunks[..counter])
      invariant file == MAGIC + prefix + Frames(cipher, key, prefix, 0, chunks[..counter])
      invariant nonces == Nonces(prefix, counter)
      decreases |chunks| - counter
    {
      var chunk := chunks[counter];
      assert chunks[..counter + 1] == chunks[..counter] + [chunk];
      FramesAppend(cipher, key, prefix, 0, chunks[..counter], chunk);
      ghost var before := file;
      var nonce := Nonce(prefix, counter);
      nonces := nonces + [nonce];
      NoncesGrow(prefix, counter);
      file := file + (BigEndian(|chunk|) + cipher.encrypt(key, nonce, BigEndian(counter), chunk));
      if counter == U32_MAX {
        NoncesEnd(prefix, |chunks|);
        return Failure(TooManyChunks), nonces;
      }
      counter := counter + 1;
    }
    assert chunks[..counter] == chunks;
    assert file + BigEndian(0) == Encoded(cipher, key, prefix, chunks);
    return Success(file + BigEndian(0)), nonces;
  }

  // ---- decryption --------------------------------------------------------------------------

  /** The length field of the next frame. */
  function Length(rest: Bytes): nat {
    if |rest| < 4 then 0 else FromBigEndian(rest[..4])
  }

  /** One frame: its plaintext, or nothing at the terminating zero length. */
  function DecodeFrame(cipher: Cipher, key: Bytes, prefix: Bytes, counter: nat, rest: Bytes): (r: Result<Option<Bytes>, Error>)
    requires counter <= U32_MAX
    ensures r.Success? && r.value.Some? ==> counter < U32_MAX && |rest| >= 4 + Length(rest) + TAG_LENGTH
  {
    var n := Length(rest);
    if |rest| < 4 then Failure(UnexpectedEnd)
    else if n == 0 then Success(None)
    else if n > CHUNK_LIMIT then Failure(InvalidChunk)
    else if |rest| < 4 + n + TAG_LENGTH then Failure(UnexpectedEnd)
    else
      match cipher.decrypt(key, Nonce(prefix, counter), BigEndian(counter), rest[4..4 + n + TAG_LENGTH])
      case None => Failure(Unauthentic)
      case Some(plain) => if counter == U32_MAX then Failure(TooManyChunks) else Success(Some(plain))
  }

  function DecodeFrames(cipher: Cipher, key: Bytes, prefix: Bytes, counter: nat, rest: Bytes): Result<Bytes, Error>
    requires counter <= U32_MAX
    decreases |rest|
  {
    match DecodeFrame(cipher, key, prefix, counter, rest)
    case Failure(error) => Failure(error)
    case Success(None) => Success([])
    case Success(Some(plain)) =>
      Prepend(plain, DecodeFrames(cipher, key, prefix, counter + 1, rest[4 + Length(rest) + TAG_LENGTH..]))
  }

  function Prepend(bytes: Bytes, result: Result<Bytes, Error>): Result<Bytes, Error> {
    if result.Success? then Success(bytes + result.value) else result
  }

  /** The plaintext of the frames in front of the end or of the first error. */
  function Recovered(cipher: Cipher, key: Bytes, prefix: Bytes, counter: nat, rest: Bytes): Bytes
    requires counter <= U32_MAX
    decreases |rest|
  {
    match DecodeFrame(cipher, key, prefix, counter, rest)
    case Success(Some(plain)) => plain + Recovered(cipher, key, prefix, counter + 1, rest[4 + Length(rest) + TAG_LENGTH..])
    case _ => []
  }

  lemma {:induction false} DecodedIsRecovered(cipher: Cipher, key: Bytes, prefix: Bytes, counter: nat, rest: Bytes)
    requires counter <= U32_MAX
    ensures var decoded := DecodeFrames(cipher, key, prefix, counter, rest);
      decoded.Success? ==> decoded.value == Recovered(cipher, key, prefix, counter, rest)
    decreases |rest|
  {
    var frame := DecodeFrame(cipher, key, prefix, counter, rest);
    if frame.Success? && frame.value.Some? {
      DecodedIsRecovered(cipher, key, prefix, counter + 1, rest[4 + Length(rest) + TAG_LENGTH..]);
    }
  }

  predicate HeaderOk(file: Bytes) {
    |file| >= |MAGIC| + PREFIX_LENGTH && file[..|MAGIC|] == MAGIC
  }

  function Decode(cipher: Cipher, key: Bytes, file: Bytes): Result<Bytes, Error> {
    if |file| < |MAGIC| then Failure(UnexpectedEnd)
    else if file[..|MAGIC|] != MAGIC then Failure(InvalidHeader)
    else if |file| < |MAGIC| + PREFIX_LENGTH then Failure(UnexpectedEnd)
    else DecodeFrames(cipher, key, file[|MAGIC|..|MAGIC| + PREFIX_LENGTH], 0, file[|MAGIC| + PREFIX_LENGTH..])
  }

  /** `decrypt_file_blocking`; `output` is what has been written, also when it fails. */
  method DecryptFile(cipher: Cipher, key: Bytes, file: Bytes) returns (result: Result<(), Error>, output: Bytes)
    ensures match Decode(cipher, key, file)
      case Success(plain) => result == Success(()) && output == plain
      case Failure(error) => result == Failure(error)
    ensures output == if HeaderOk(file)
      then Recovered(cipher, key, file[|MAGIC|..|MAGIC| + PREFIX_LENGTH], 0, file[|MAGIC| + PREFIX_LENGTH..]) else []
  {
    output := [];
    if |file| < |MAGIC| {
      return Failure(UnexpectedEnd), output;
    }
    if file[..|MAGIC|] != MAGIC {
      return Failure(InvalidHeader), output;
    }
    if |file| < |MAGIC| + PREFIX_LENGTH {
      return Failure(UnexpectedEnd), output;
    }
    var prefix := file[|MAGIC|..|MAGIC| + PREFIX_LENGTH];
    var position := |MAGIC| + PREFIX_LENGTH;
    var counter: nat := 0;
    ghost var all := DecodeFrames(cipher, key, prefix, 0, file[position..]);
    ghost var whole := Recovered(cipher, key, prefix, 0, file[position..]);
    DecodedIsRecovered(cipher, key, prefix, 0, file[position..]);
    assert all == Prepend(output, all) by { PrependTwice([], [], all); }
    AppendNothing(whole);
    hide DecodeFrame, Prepend;
    while true
      invariant |MAGIC| + PREFIX_LENGTH <= position <= |file| && counter <= U32_MAX
      invariant all == Prepend(output, DecodeFrames(cipher, key, prefix, counter, file[position..]))
      invariant whole == output + Recovered(cipher, key, prefix, counter, file[position..])
      decreases |file| - position
    {
      var frame, next := ReadFrame(cipher, key, prefix, counter, file, position);
      AppendNothing(output);
      if frame.Failure? {
        PrependFails(output, frame.error);
        return Failure(frame.error), output;
      }
      if frame.value.None? {
        PrependFails(output, UnexpectedEnd);
        return Success(()), output;
      }
      PrependTwice(output, frame.value.value, DecodeFrames(cipher, key, prefix, counter + 1, file[next..]));
      Regroup(output, frame.value.value, Recovered(cipher, key, prefix, counter + 1, file[next..]));
      output := output + frame.value.value;
      position, counter := next, counter + 1;
    }
  }

  /** The body of the loop. */
  method ReadFrame(cipher: Cipher, key: Bytes, prefix: Bytes, counter: nat, file: Bytes, position: nat)
    returns (frame: Result<Option<Bytes>, Error>, next: nat)
    requires counter <= U32_MAX && position <= |file|
    ensures frame == DecodeFrame(cipher, key, prefix, counter, file[position..])
    ensures frame.Success? && frame.value.Some? ==>
      && next == position + 4 + Length(file[position..]) + TAG_LENGTH <= |file|
      && file[next..] == file[position..][4 + Length(file[position..]) + TAG_LENGTH..]
  {
    hide FromBigEndian, BigEndian, Nonce;
    ghost var rest := file[position..];
    next := position;
    if |file| - position < 4 {
      return Failure(UnexpectedEnd), next;
    }
    var n := FromBigEndian(file[position..position + 4]);
    assert rest[..4] == file[position..position + 4];
    if n == 0 {
      return Success(None), next;
    }
    if n > CHUNK_LIMIT {
      return Failure(InvalidChunk), next;
    }
    next := position + 4 + n + TAG_LENGTH;
    if next > |file| {
      return Failure(UnexpectedEnd), next;
    }
    assert rest[4..4 + n + TAG_LENGTH] == file[position + 4..next];
    assert rest[4 + n + TAG_LENGTH..] == file[next..];
    var plain := cipher.decrypt(key, Nonce(prefix, counter), BigEndian(counter), file[position + 4..next]);
    if plain.None? {
      return Failure(Unauthentic), next;
    }
    if counter == U32_MAX {
      return Failure(TooManyChunks), next;
    }
    return Success(plain), next;
  }

  lemma PrependTwice(a: Bytes, b: Bytes, result: Result<Bytes, Error>)
    ensures Prepend(a, Prepend(b, result)) == Prepend(a + b, result)
    ensures Prepend([], result) == result
  {
    if result.Success? {
      Regroup(a, b, result.value);
      assert [] + result.value == result.value;
    }
  }

  lemma PrependFails(a: Bytes, error: Error)
    ensures Prepend(a, Failure(error)) == Failure(error)
    ensures Prepend(a, Success([])) == Success(a)
  {
    assert a + [] == a;
  }

  // ---- laws ------------------------------------------------------------------------------------

  lemma OneFrame(cipher: Cipher, key: Bytes, prefix: Bytes, counter: nat, chunk: Bytes, rest: Bytes)
    requires Sound(cipher) && counter < U32_MAX && 0 < |chunk| <= CHUNK_LIMIT
    ensures |Frame(cipher, key, prefix, counter, chunk)| == 4 + |chunk| + TAG_LENGTH
    ensures DecodeFrames(cipher, key, prefix, counter, Frame(cipher, key, prefix, counter, chunk) + rest)
      == Prepend(chunk, DecodeFrames(cipher, key, prefix, counter + 1, rest))
  {
    hide BigEndian, FromBigEndian, Nonce, Prepend;
    var ciphertext := cipher.encrypt(key, Nonce(prefix, counter), BigEndian(counter), chunk);
    var all := BigEndian(|chunk|) + ciphertext + rest;
    BigEndianRoundTrip(|chunk|);
    assert all[..4] == BigEndian(|chunk|);
    assert all[4..4 + |chunk| + TAG_LENGTH] == ciphertext;
    assert all[4 + |chunk| + TAG_LENGTH..] == rest;
  }

  lemma Terminator(cipher: Cipher, key: Bytes, prefix: Bytes, counter: nat, trailing: Bytes)
    requires counter <= U32_MAX
    ensures DecodeFrames(cipher, key, prefix, counter, BigEndian(0) + trailing) == Success([])
  {}

  lemma {:induction false} FramesRoundTrip(cipher: Cipher, key: Bytes, prefix: Bytes, counter: nat, chunks: seq<Bytes>, trailing: Bytes)
    requires Sound(cipher) && Chunks(chunks) && counter + |chunks| <= U32_MAX
    ensures DecodeFrames(cipher, key, prefix, counter, Frames(cipher, key, prefix, counter, chunks) + (BigEndian(0) + trailing))
      == Success(Plain(chunks))
    decreases |chunks|
  {
    hide DecodeFrames, Frame, Sound, BigEndian;
    var end := BigEndian(0) + trailing;
    if chunks == [] {
      Terminator(cipher, key, prefix, counter, trailing);
      assert Frames(cipher, key, prefix, counter, chunks) + end == end;
    } else {
      var frame, rest := Frame(cipher, key, prefix, counter, chunks[0]), Frames(cipher, key, prefix, counter + 1, chunks[1..]);
      FramesRoundTrip(cipher, key, prefix, counter + 1, chunks[1..], trailing);
      OneFrame(cipher, key, prefix, counter, chunks[0], rest + end);
      Regroup(frame, rest, end);
    }
  }

  /** What a whole header decodes to is what the frames behind it decode to. */
  lemma Header(cipher: Cipher, key: Bytes, prefix: Bytes, body: Bytes)
    requires |prefix| == PREFIX_LENGTH
    ensures Decode(cipher, key, MAGIC + prefix + body) == DecodeFrames(cipher, key, prefix, 0, body)
  {}

  /** However the plaintext was split into reads, decrypting gives it back;
      bytes behind the terminating zero length are ignored. */
  lemma RoundTrip(cipher: Cipher, key: Bytes, prefix: Bytes, chunks: seq<Bytes>, trailing: Bytes)
    requires Sound(cipher) && Chunks(chunks) && |chunks| <= U32_MAX && |prefix| == PREFIX_LENGTH
    ensures Decode(cipher, key, Encoded(cipher, key, prefix, chunks) + trailing) == Success(Plain(chunks))
  {
    hide Decode, DecodeFrames, Frames, Sound;
    var body := Frames(cipher, key, prefix, 0, chunks) + (BigEndian(0) + trailing);
    assert Encoded(cipher, key, prefix, chunks) + trailing == MAGIC + prefix + body;
    Header(cipher, key, prefix, body);
    FramesRoundTrip(cipher, key, prefix, 0, chunks, trailing);
  }

  lemma CutFrame(cipher: Cipher, key: Bytes, prefix: Bytes, counter: nat, chunk: Bytes, k: nat)
    requires Sound(cipher) && counter < U32_MAX && 0 < |chunk| <= CHUNK_LIMIT
    requires k < |Frame(cipher, key, prefix, counter, chunk)|
    ensures DecodeFrames(cipher, key, prefix, counter, Frame(cipher, key, prefix, counter, chunk)[..k]) == Failure(UnexpectedEnd)
  {
    var rest := Frame(cipher, key, prefix, counter, chunk)[..k];
    BigEndianRoundTrip(|chunk|);
    if k >= 4 {
      assert rest[..4] == BigEndian(|chunk|);
    }
  }

  lemma {:induction false} CutFramesFail(cipher: Cipher, key: Bytes, prefix: Bytes, counter: nat, chunks: seq<Bytes>, k: nat)
    requires Sound(cipher) && Chunks(chunks) && counter + |chunks| <= U32_MAX
    requires k < |Frames(cipher, key, prefix, counter, chunks) + BigEndian(0)|
    ensures DecodeFrames(cipher, key, prefix, counter, (Frames(cipher, key, prefix, counter, chunks) + BigEndian(0))[..k])
      == Failure(UnexpectedEnd)
    decreases |chunks|
  {
    if chunks != [] {
      hide DecodeFrames, Frame, Sound;
      var all := Frames(cipher, key, prefix, counter, chunks) + BigEndian(0);
      var frame := Frame(cipher, key, prefix, counter, chunks[0]);
      var rest := Frames(cipher, key, prefix, counter + 1, chunks[1..]) + BigEndian(0);
      assert all == frame + rest;
      if k < |frame| {
        assert all[..k] == frame[..k];
        CutFrame(cipher, key, prefix, counter, chunks[0], k);
      } else {
        CutFramesFail(cipher, key, prefix, counter + 1, chunks[1..], k - |frame|);
        assert all[..k] == frame + rest[..k - |frame|];
        OneFrame(cipher, key, prefix, counter, chunks[0], rest[..k - |frame|]);
      }
    }
  }

  /** A truncated file is always rejected, wherever it was cut. */
  lemma TruncationIsRejected(cipher: Cipher, key: Bytes, prefix: Bytes, chunks: seq<Bytes>, k: nat)
    requires Sound(cipher) && Chunks(chunks) && |chunks| <= U32_MAX && |prefix| == PREFIX_LENGTH
    requires k < |Encoded(cipher, key, prefix, chunks)|
    ensures Decode(cipher, key, Encoded(cipher, key, prefix, chunks)[..k]) == Failure(UnexpectedEnd)
  {
    hide DecodeFrames, Frames, Sound;
    var file := Encoded(cipher, key, prefix, chunks);
    var body := Frames(cipher, key, prefix, 0, chunks) + BigEndian(0);
    var header := |MAGIC| + PREFIX_LENGTH;
    if k < header {
      if k >= |MAGIC| { assert file[..k][..|MAGIC|] == MAGIC; }
    } else {
      assert file[..k] == MAGIC + prefix + body[..k - header];
      Header(cipher, key, prefix, body[..k - header]);
      CutFramesFail(cipher, key, prefix, 0, chunks, k - header);
    }
  }

  /** The nonces of one encryption are pairwise distinct, those of one that
      fails included (section 8 of NIST SP 800-38D). */
  lemma NoncesAreDistinct(prefix: Bytes, n: nat)
    ensures forall i, j :: 0 <= i < j < |Nonces(prefix, n)| ==> Nonces(prefix, n)[i] != Nonces(prefix, n)[j]
  {
    forall i, j | 0 <= i < j < |Nonces(prefix, n)| ensures Nonces(prefix, n)[i] != Nonces(prefix, n)[j] {
      NonceDetermines(prefix, i, j);
    }
  }

  lemma NonceDetermines(prefix: Bytes, a: nat, b: nat)
    requires a <= U32_MAX && b <= U32_MAX && a != b
    ensures Nonce(prefix, a) != Nonce(prefix, b)
  {
    BigEndianRoundTrip(a);
    BigEndianRoundTrip(b);
    assert Nonce(prefix, a)[|prefix|..] == BigEndian(a);
    assert Nonce(prefix, b)[|prefix|..] == BigEndian(b);
  }

  // ---- the bytes of a file -------------------------------------------------------------------------

  /** Four bytes that hold a number, the most significant one first. */
  predicate Holds(bytes: Bytes, n: nat) {
    && |bytes| == 4
    && n == bytes[0] as nat * 16777216 + bytes[1] as nat * 65536 + bytes[2] as nat * 256 + bytes[3] as nat
  }

  lemma BigEndianHolds(n: nat)
    requires n <= U32_MAX
    ensures Holds(BigEndian(n), n)
  {
    BigEndianRoundTrip(n);
  }

  /** Where the frame of a chunk begins among the frames. */
  function Offset(chunks: seq<Bytes>, k: nat): nat
    requires k <= |chunks|
  {
    if k == 0 then 0 else Offset(chunks, k - 1) + 4 + |chunks[k - 1]| + 16
  }

  lemma {:induction false} OffsetOfRest(chunks: seq<Bytes>, k: nat)
    requires 0 < k <= |chunks|
    ensures Offset(chunks, k) == 20 + |chunks[0]| + Offset(chunks[1..], k - 1)
    decreases k
  {
    if k > 1 { OffsetOfRest(chunks, k - 1); }
  }

  /** A frame at a position: the chunk's length, then what the cipher makes of the
      chunk with the number of the frame behind the prefix and as associated data. */
  ghost predicate FrameAt(cipher: Cipher, key: Bytes, prefix: Bytes, number: nat, chunk: Bytes, bytes: Bytes, at: nat) {
    && at + 4 + |chunk| + 16 <= |bytes|
    && Holds(bytes[at..at + 4], |chunk|)
    && exists counter: Bytes :: Holds(counter, number)
         && bytes[at + 4..at + 4 + |chunk| + 16] == cipher.encrypt(key, prefix + counter, counter, chunk)
  }

  lemma {:induction false} FrameInFront(cipher: Cipher, key: Bytes, prefix: Bytes, number: nat, chunk: Bytes, rest: Bytes)
    requires Sound(cipher) && number <= U32_MAX && |chunk| <= CHUNK_LIMIT
    ensures FrameAt(cipher, key, prefix, number, chunk, Frame(cipher, key, prefix, number, chunk) + rest, 0)
    ensures |Frame(cipher, key, prefix, number, chunk)| == 20 + |chunk|
  {
    hide BigEndian, Holds;
    var all := Frame(cipher, key, prefix, number, chunk) + rest;
    var counter := BigEndian(number);
    var ciphertext := cipher.encrypt(key, prefix + counter, counter, chunk);
    BigEndianHolds(|chunk|);
    BigEndianHolds(number);
    assert all[0..4] == BigEndian(|chunk|);
    assert all[4..4 + |chunk| + 16] == ciphertext;
  }

  lemma {:induction false} FrameFurther(cipher: Cipher, key: Bytes, prefix: Bytes, number: nat, chunk: Bytes,
                                       front: Bytes, bytes: Bytes, at: nat)
    requires FrameAt(cipher, key, prefix, number, chunk, bytes, at)
    ensures FrameAt(cipher, key, prefix, number, chunk, front + bytes, |front| + at)
  {
    hide Holds;
    var all, start := front + bytes, |front| + at;
    assert all[start..start + 4] == bytes[at..at + 4];
    assert all[start + 4..start + 4 + |chunk| + 16] == bytes[at + 4..at + 4 + |chunk| + 16];
  }

  lemma {:induction false} FramesLayout(cipher: Cipher, key: Bytes, prefix: Bytes, counter: nat, chunks: seq<Bytes>, rest: Bytes, k: nat)
    requires Sound(cipher) && Chunks(chunks) && counter + |chunks| <= U32_MAX && k <= |chunks|
    ensures var all := Frames(cipher, key, prefix, counter, chunks) + rest;
      && (k < |chunks| ==> FrameAt(cipher, key, prefix, counter + k, chunks[k], all, Offset(chunks, k)))
      && (k == |chunks| ==> Offset(chunks, k) <= |all| && all[Offset(chunks, k)..] == rest)
    decreases k
  {
    hide Frame, Sound, FrameAt;
    if chunks == [] {
      assert Frames(cipher, key, prefix, counter, chunks) + rest == rest;
    } else {
      var frame, more := Frame(cipher, key, prefix, counter, chunks[0]), Frames(cipher, key, prefix, counter + 1, chunks[1..]) + rest;
      FrameInFront(cipher, key, prefix, counter, chunks[0], more);
      Regroup(frame, Frames(cipher, key, prefix, counter + 1, chunks[1..]), rest);
      if k > 0 {
        FramesLayout(cipher, key, prefix, counter + 1, chunks[1..], rest, k - 1);
        OffsetOfRest(chunks, k);
        if k < |chunks| {
          FrameFurther(cipher, key, prefix, counter + k, chunks[k], frame, more, Offset(chunks[1..], k - 1));
        } else {
          assert (frame + more)[|frame| + Offset(chunks[1..], k - 1)..] == more[Offset(chunks[1..], k - 1)..];
        }
      }
    }
  }

  /** Every byte of an encrypted file: "AGPBK01" and a zero, the prefix, the frames
      numbered from zero, and four zeros. */
  lemma {:induction false} FileLayout(cipher: Cipher, key: Bytes, prefix: Bytes, chunks: seq<Bytes>, k: nat)
    requires Sound(cipher) && Chunks(chunks) && |chunks| <= U32_MAX && |prefix| == 8 && k < |chunks|
    ensures var file := Encoded(cipher, key, prefix, chunks);
      && |file| == 16 + Offset(chunks, |chunks|) + 4
      && file[..8] == [65, 71, 80, 66, 75, 48, 49, 0] && file[8..16] == prefix
      && FrameAt(cipher, key, prefix, k, chunks[k], file, 16 + Offset(chunks, k))
      && file[|file| - 4..] == [0, 0, 0, 0]
  {
    var end := BigEndian(0);
    var body := Frames(cipher, key, prefix, 0, chunks) + end;
    assert Encoded(cipher, key, prefix, chunks) == (MAGIC + prefix) + body;
    hide Frames, Sound, Chunks, FrameAt, Encoded;
    FramesLayout(cipher, key, prefix, 0, chunks, end, k);
    FramesLayout(cipher, key, prefix, 0, chunks, end, |chunks|);
    FrameFurther(cipher, key, prefix, k, chunks[k], MAGIC + prefix, body, Offset(chunks, k));
  }

  // ---- which files are accepted -----------------------------------------------------------------------

  /** What is found behind the frames read so far: the end, or what is wrong there. */
  ghost predicate Ends(cipher: Cipher, key: Bytes, prefix: Bytes, number: nat, rest: Bytes, error: Option<Error>)
    requires number <= U32_MAX
  {
    if |rest| < 4 then error == Some(UnexpectedEnd) else
      var n := FromBigEndian(rest[..4]);
      match error
      case None => n == 0
      case Some(UnexpectedEnd) => 0 < n <= 4194304 && |rest| < 4 + n + 16
      case Some(InvalidChunk) => n > 4194304
      case Some(InvalidHeader) => false
      case Some(Unauthentic) => HasFrame(rest, n) && Opened(cipher, key, prefix, number, rest[4..4 + n + 16]) == None
      case Some(TooManyChunks) =>
        HasFrame(rest, n) && Opened(cipher, key, prefix, number, rest[4..4 + n + 16]).Some? && number == U32_MAX
  }

  /** A whole frame of at most four mebibytes. */
  predicate HasFrame(rest: Bytes, n: nat) {
    0 < n <= 4194304 && |rest| >= 4 + n + 16
  }

  /** The frame's number is in its nonce and in what it authenticates. */
  function Opened(cipher: Cipher, key: Bytes, prefix: Bytes, number: nat, ciphertext: Bytes): Option<Bytes>
    requires number <= U32_MAX
  {
    cipher.decrypt(key, prefix + BigEndian(number), BigEndian(number), ciphertext)
  }

  /** Frames that open to these chunks, in order, and what comes behind them. */
  ghost predicate Opens(cipher: Cipher, key: Bytes, prefix: Bytes, number: nat, rest: Bytes, chunks: seq<Bytes>, error: Option<Error>)
    requires number <= U32_MAX
    decreases |chunks|
  {
    if chunks == [] then Ends(cipher, key, prefix, number, rest, error) else
      && |rest| >= 4
      && var n := FromBigEndian(rest[..4]);
      && HasFrame(rest, n) && number < U32_MAX
      && Opened(cipher, key, prefix, number, rest[4..4 + n + 16]) == Some(chunks[0])
      && Opens(cipher, key, prefix, number + 1, rest[4 + n + 16..], chunks[1..], error)
  }

  function Outcome(chunks: seq<Bytes>, error: Option<Error>): Result<Bytes, Error> {
    match error
    case None => Success(Plain(chunks))
    case Some(e) => Failure(e)
  }

  /** Decoding follows the frames as long as they open, whatever stands behind them. */
  lemma {:induction false} OpenedIsDecoded(cipher: Cipher, key: Bytes, prefix: Bytes, number: nat, rest: Bytes,
                                          chunks: seq<Bytes>, error: Option<Error>)
    requires number <= U32_MAX && Opens(cipher, key, prefix, number, rest, chunks, error)
    ensures DecodeFrames(cipher, key, prefix, number, rest) == Outcome(chunks, error)
    ensures Recovered(cipher, key, prefix, number, rest) == Plain(chunks)
    decreases |chunks|
  {
    hide FromBigEndian, BigEndian;
    if chunks != [] {
      var n := FromBigEndian(rest[..4]);
      OpenedIsDecoded(cipher, key, prefix, number + 1, rest[4 + n + 16..], chunks[1..], error);
    }
  }

  /** ... and every input is such frames with an end or an error behind them. */
  lemma {:induction false} EverythingOpens(cipher: Cipher, key: Bytes, prefix: Bytes, number: nat, rest: Bytes)
    returns (chunks: seq<Bytes>, error: Option<Error>)
    requires number <= U32_MAX
    ensures Opens(cipher, key, prefix, number, rest, chunks, error)
    decreases |rest|
  {
    hide FromBigEndian, BigEndian;
    chunks := [];
    if |rest| < 4 { error := Some(UnexpectedEnd); return; }
    var n := FromBigEndian(rest[..4]);
    if n == 0 { error := None; return; }
    if n > 4194304 { error := Some(InvalidChunk); return; }
    if |rest| < 4 + n + 16 { error := Some(UnexpectedEnd); return; }
    var plain := Opened(cipher, key, prefix, number, rest[4..4 + n + 16]);
    if plain.None? { error := Some(Unauthentic); return; }
    if number == U32_MAX { error := Some(TooManyChunks); return; }
    var more;
    more, error := EverythingOpens(cipher, key, prefix, number + 1, rest[4 + n + 16..]);
    chunks := [plain.value] + more;
    assert chunks[1..] == more;
  }

  /** Exactly the files with the magic, a prefix, and frames that open up to an end
      are accepted; for any other, the error says what stands behind the last
      frame that opens, and what these hold has been written. */
  lemma {:induction false} DecodesIff(cipher: Cipher, key: Bytes, file: Bytes, result: Result<Bytes, Error>)
    ensures Decode(cipher, key, file) == result <==>
      if |file| < 8 then result == Failure(UnexpectedEnd)
      else if file[..8] != [65, 71, 80, 66, 75, 48, 49, 0] then result == Failure(InvalidHeader)
      else if |file| < 16 then result == Failure(UnexpectedEnd)
      else exists chunks, error ::
        Opens(cipher, key, file[8..16], 0, file[16..], chunks, error) && result == Outcome(chunks, error)
  {
    hide DecodeFrames, Opens, Outcome;
    if |file| >= 16 && file[..8] == MAGIC {
      var chunks, error := EverythingOpens(cipher, key, file[8..16], 0, file[16..]);
      OpenedIsDecoded(cipher, key, file[8..16], 0, file[16..], chunks, error);
      forall chunks, error | Opens(cipher, key, file[8..16], 0, file[16..], chunks, error)
        ensures Decode(cipher, key, file) == Outcome(chunks, error)
      {
        OpenedIsDecoded(cipher, key, file[8..16], 0, file[16..], chunks, error);
      }
    }
  }
}
