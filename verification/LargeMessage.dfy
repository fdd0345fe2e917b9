/**
 * Messages over the Android WebRTC data channel: WebRTCPublisher cuts a large message into chunks
 * of its compressed form and ends it with "EOF"; WebRTCSubscriber puts it together again.
 * The data channel is taken as reliable and ordered.
 */
module LargeMessage {
  import opened Results
  import opened ByteStrings

  const MAX_MESSAGE_SIZE: nat := 32768
  const MAX_UNCOMPRESSED_MESSAGE_SIZE: nat := 295936
  const EOF_MESSAGE: Bytes := [0x45, 0x4f, 0x46]
  const INT_MAX: nat := 0x7fff_ffff

  // The Zstd library; decompressing into a buffer of a given size may fail.
  datatype Zstd = Zstd(compress: Bytes -> Bytes, decompressedSize: Bytes -> nat, decompress: (Bytes, nat) -> Option<Bytes>)

  ghost predicate Lossless(z: Zstd) {
    forall m: Bytes {:trigger z.compress(m)} ::
      && z.decompressedSize(z.compress(m)) == |m|
      && forall size: nat {:trigger z.decompress(z.compress(m), size)} :: |m| <= size ==> z.decompress(z.compress(m), size) == Some(m)
  }

  function Min(a: int, b: int): int {
    if a < b then a else b
  }

  function Max(a: int, b: int): int {
    if a < b then b else a
  }

  // ---------------------------------------------------------------- what is sent

  function Chunks(data: Bytes): seq<Bytes>
    decreases |data|
  {
    if data == [] then []
    else
      var n := Min(|data|, MAX_MESSAGE_SIZE);
      [data[..n]] + Chunks(data[n..])
  }

  // The longest data that the chunking index gets through without overflow.
  const INDEX_MAX: nat := INT_MAX - MAX_MESSAGE_SIZE + 1

  predicate Sendable(z: Zstd, m: Bytes) {
    |m| < MAX_MESSAGE_SIZE || |z.compress(m)| <= INDEX_MAX
  }

  function Sent(z: Zstd, m: Bytes): seq<Bytes> {
    if |m| < MAX_MESSAGE_SIZE then [m]
    else Chunks(z.compress(m)) + if Sendable(z, m) then [EOF_MESSAGE] else []
  }

  // Java's addition of ints.
  function Wrapped(n: nat): int
    requires n <= 2 * INT_MAX
  {
    if n <= INT_MAX then n else n - 2 * (INT_MAX + 1)
  }

  // WebRTCPublisher.pushMessageData. When the index overflows, the range it asks for is refused and
  // the call fails after the last chunk.
  method PushMessageData(z: Zstd, message: Bytes) returns (ok: bool, sent: seq<Bytes>)
    requires |z.compress(message)| <= INT_MAX   // an array
    ensures ok <==> Sendable(z, message)
    ensures sent == Sent(z, message)
  {
    if |message| < MAX_MESSAGE_SIZE {
      return true, [message];
    }
    var compressData := z.compress(message);
    ok, sent := SendChunks(compressData);
    if !ok {
      return;
    }
    sent := sent + [EOF_MESSAGE];
  }

  // The loop.
  method SendChunks(compressData: Bytes) returns (ok: bool, sent: seq<Bytes>)
    requires |compressData| <= INT_MAX
    ensures ok <==> |compressData| <= INDEX_MAX
    ensures sent == Chunks(compressData)
  {
    var len := |compressData|;
    var i := 0;
    sent := [];
    while i < |compressData|
      invariant i >= 0 ==> i % MAX_MESSAGE_SIZE == 0 && i <= INDEX_MAX && len == |compressData| - i
      invariant 0 <= i <= |compressData| ==> sent + Chunks(compressData[i..]) == Chunks(compressData)
      invariant i < 0 || i > |compressData| ==> sent == Chunks(compressData)
      invariant i < 0 ==> |compressData| > INDEX_MAX
      invariant i > 0 ==> i - MAX_MESSAGE_SIZE < |compressData|
      decreases if i >= 0 then |compressData| - i + MAX_MESSAGE_SIZE else 0
    {
      if i < 0 {
        return false, sent;   // Arrays.copyOfRange throws
      }
      var n := Min(len, MAX_MESSAGE_SIZE);
      ChunkSent(compressData, sent, i, n);
      sent := sent + [compressData[i..i + n]];
      i := Wrapped(i + MAX_MESSAGE_SIZE);
      len := len - MAX_MESSAGE_SIZE;
    }
    if i == |compressData| {
      assert compressData[i..] == [];
    }
    ok := true;
  }

  lemma ChunkSent(data: Bytes, sent: seq<Bytes>, i: nat, n: nat)
    requires i < |data| && n == Min(|data| - i, MAX_MESSAGE_SIZE)
    requires sent + Chunks(data[i..]) == Chunks(data)
    ensures var sent' := sent + [data[i..i + n]];
      && sent' + Chunks(data[i + n..]) == Chunks(data)
      && (i + n == |data| ==> sent' == Chunks(data))
  {
    var rest := data[i..];
    Slices(data, i, n);
    FirstOf(rest, n);
    Regrouped(sent, data[i..i + n], Chunks(data[i + n..]));
    if i + n == |data| {
      assert data[i + n..] == [] && Chunks(data[i + n..]) == [];
    }
  }

  lemma Slices(data: Bytes, i: nat, n: nat)
    requires i + n <= |data|
    ensures data[i..][..n] == data[i..i + n] && data[i..][n..] == data[i + n..]
  {
  }

  lemma FirstOf(data: Bytes, n: nat)
    requires data != [] && n == Min(|data|, MAX_MESSAGE_SIZE)
    ensures Chunks(data) == [data[..n]] + Chunks(data[n..])
  {
  }

  lemma Regrouped(a: seq<Bytes>, x: Bytes, b: seq<Bytes>)
    ensures a + [x] + b == a + ([x] + b)
  {
  }

  // ---------------------------------------------------------------- what is received

  datatype Receiver = Receiver(baos: Bytes, recvLargeChunk: bool, delivered: seq<Bytes>)

  ghost predicate Reset(s: Receiver) {
    s.baos == [] && !s.recvLargeChunk
  }

  // Decompression as handleLargeMessage asks for it; sizes beyond an int throw.
  function Uncompressed(z: Zstd, data: Bytes): Option<Bytes> {
    var size := z.decompressedSize(data);
    if size > INT_MAX then None else z.decompress(data, Max(size, MAX_UNCOMPRESSED_MESSAGE_SIZE))
  }

  function Received(z: Zstd, s: Receiver, buffer: Bytes): Receiver {
    if !s.recvLargeChunk && |buffer| < MAX_MESSAGE_SIZE then
      s.(delivered := s.delivered + [buffer])
    else if buffer == EOF_MESSAGE then
      match Uncompressed(z, s.baos)
      case None => s
      case Some(m) => Receiver([], false, s.delivered + [m])
    else s.(recvLargeChunk := true, baos := s.baos + buffer)
  }

  function ReceivedAll(z: Zstd, s: Receiver, buffers: seq<Bytes>): Receiver
    decreases |buffers|
  {
    if buffers == [] then s else ReceivedAll(z, Received(z, s, buffers[0]), buffers[1..])
  }

  class WebRTCSubscriber {
    const z: Zstd
    var baos: Bytes
    var recvLargeChunk: bool
    var delivered: seq<Bytes>

    ghost function State(): Receiver reads this {
      Receiver(baos, recvLargeChunk, delivered)
    }

    constructor (z: Zstd)
      ensures this.z == z && Reset(State()) && delivered == []
    {
      this.z := z;
      baos, recvLargeChunk, delivered := [], false, [];
    }

    method OnMessage(buffer: Bytes)
      modifies this
      ensures State() == Received(z, old(State()), buffer)
      // a small buffer on its own is delivered; collecting, everything but the end marker is kept
      ensures !old(recvLargeChunk) && |buffer| < 32768 ==>
        delivered == old(delivered) + [buffer] && baos == old(baos) && !recvLargeChunk
      ensures (old(recvLargeChunk) || |buffer| >= 32768) && buffer != EOF_MESSAGE ==>
        delivered == old(delivered) && baos == old(baos) + buffer && recvLargeChunk
      ensures old(recvLargeChunk) && buffer == EOF_MESSAGE ==>
        match Uncompressed(z, old(baos))
        case None => delivered == old(delivered) && baos == old(baos) && recvLargeChunk
        case Some(m) => delivered == old(delivered) + [m] && baos == [] && !recvLargeChunk
    {
      if !recvLargeChunk && |buffer| < MAX_MESSAGE_SIZE {
        delivered := delivered + [buffer];
      } else {
        HandleLargeMessage(buffer);
      }
    }

    // A failed decompression keeps what was collected.
    method HandleLargeMessage(buffer: Bytes)
      requires recvLargeChunk || |buffer| >= MAX_MESSAGE_SIZE
      modifies this
      ensures State() == Received(z, old(State()), buffer)
    {
      if buffer == EOF_MESSAGE {
        var message := Uncompressed(z, baos);
        if message.Some? {
          delivered := delivered + [message.value];
          baos := [];
          recvLargeChunk := false;
        }
      } else {
        recvLargeChunk := true;
        baos := baos + buffer;
      }
    }
  }

  // ---------------------------------------------------------------- round trip

  // The condition on one message: small, or its compressed form fills a chunk, is short enough for
  // the index, and does not end with a chunk that reads "EOF".
  predicate Transmissible(z: Zstd, m: Bytes) {
    || |m| < MAX_MESSAGE_SIZE
    || (MAX_MESSAGE_SIZE <= |z.compress(m)| <= INDEX_MAX && LastChunk(z.compress(m)) != EOF_MESSAGE)
  }

  function LastChunk(data: Bytes): Bytes {
    var rest := |data| % MAX_MESSAGE_SIZE;
    data[|data| - (if rest == 0 && data != [] then MAX_MESSAGE_SIZE else rest)..]
  }

  lemma {:induction false} ReceivedConcat(z: Zstd, s: Receiver, a: seq<Bytes>, b: seq<Bytes>)
    ensures ReceivedAll(z, s, a + b) == ReceivedAll(z, ReceivedAll(z, s, a), b)
    decreases |a|
  {
    if a == [] {
      assert a + b == b;
    } else {
      assert (a + b)[1..] == a[1..] + b;
      ReceivedConcat(z, Received(z, s, a[0]), a[1..], b);
    }
  }

  // A receiver that is collecting appends all chunks, up to a last chunk that reads "EOF".
  lemma {:induction false} Collecting(z: Zstd, s: Receiver, data: Bytes)
    requires s.recvLargeChunk
    ensures LastChunk(data) != EOF_MESSAGE ==>
      ReceivedAll(z, s, Chunks(data)) == s.(baos := s.baos + data)
    ensures LastChunk(data) == EOF_MESSAGE ==>
      ReceivedAll(z, s, Chunks(data)) == Received(z, s.(baos := s.baos + data[..|data| - 3]), EOF_MESSAGE)
    decreases |data|
  {
    if |data| <= MAX_MESSAGE_SIZE {
      LastOfShort(data);
      CollectingLast(z, s, data);
    } else {
      var n := MAX_MESSAGE_SIZE;
      var rest := data[n..];
      var s' := s.(baos := s.baos + data[..n]);
      CollectingOne(z, s, data);
      LastOfRest(data);
      Collecting(z, s', rest);
      assert s'.baos + rest == s.baos + data;
      if LastChunk(data) == EOF_MESSAGE {
        SplitBeforeEnd(s.baos, data);
      }
    }
  }

  lemma SplitBeforeEnd(before: Bytes, data: Bytes)
    requires |data| > MAX_MESSAGE_SIZE && |data[MAX_MESSAGE_SIZE..]| >= 3
    ensures var n, rest := MAX_MESSAGE_SIZE, data[MAX_MESSAGE_SIZE..];
      before + data[..n] + rest[..|rest| - 3] == before + data[..|data| - 3]
  {
  }

  lemma LastOfShort(data: Bytes)
    requires |data| <= MAX_MESSAGE_SIZE
    ensures LastChunk(data) == data
  {
    if |data| == MAX_MESSAGE_SIZE {
      assert |data| % MAX_MESSAGE_SIZE == 0;
      assert data[0..] == data;
    } else {
      assert |data| % MAX_MESSAGE_SIZE == |data|;
      assert data[|data| - |data|..] == data;
    }
  }

  lemma CollectingLast(z: Zstd, s: Receiver, data: Bytes)
    requires s.recvLargeChunk && |data| <= MAX_MESSAGE_SIZE
    ensures data == EOF_MESSAGE ==> s.baos + data[..|data| - 3] == s.baos
    ensures ReceivedAll(z, s, Chunks(data)) == if data == EOF_MESSAGE then Received(z, s, EOF_MESSAGE) else s.(baos := s.baos + data)
  {
    if data == [] {
      assert s.baos + data == s.baos;
    } else {
      OneChunk(data);
      ReceivedOne(z, s, data);
    }
  }

  lemma OneChunk(data: Bytes)
    requires 0 < |data| <= MAX_MESSAGE_SIZE
    ensures Chunks(data) == [data]
  {
    assert data[..|data|] == data && data[|data|..] == [];
  }

  lemma ReceivedOne(z: Zstd, s: Receiver, buffer: Bytes)
    ensures ReceivedAll(z, s, [buffer]) == Received(z, s, buffer)
  {
    assert [buffer][1..] == [];
  }

  lemma CollectingOne(z: Zstd, s: Receiver, data: Bytes)
    requires s.recvLargeChunk && |data| > MAX_MESSAGE_SIZE
    ensures var n := MAX_MESSAGE_SIZE;
      ReceivedAll(z, s, Chunks(data)) == ReceivedAll(z, s.(baos := s.baos + data[..n]), Chunks(data[n..]))
  {
    var n := MAX_MESSAGE_SIZE;
    assert Received(z, s, data[..n]) == s.(baos := s.baos + data[..n]);
    assert Chunks(data)[1..] == Chunks(data[n..]);
  }

  lemma LastOfRest(data: Bytes)
    requires |data| > MAX_MESSAGE_SIZE
    ensures LastChunk(data) == LastChunk(data[MAX_MESSAGE_SIZE..])
  {
    var rest := data[MAX_MESSAGE_SIZE..];
    assert |rest| % MAX_MESSAGE_SIZE == |data| % MAX_MESSAGE_SIZE;
  }

  // A receiver in its reset state keeps a first chunk of full size.
  lemma FirstChunk(z: Zstd, s: Receiver, data: Bytes)
    requires Reset(s) && |data| >= MAX_MESSAGE_SIZE
    ensures var n := MAX_MESSAGE_SIZE;
      ReceivedAll(z, s, Chunks(data)) == ReceivedAll(z, Receiver(data[..n], true, s.delivered), Chunks(data[n..]))
    ensures LastChunk(data) == EOF_MESSAGE ==> |data| > MAX_MESSAGE_SIZE
  {
    var n := MAX_MESSAGE_SIZE;
    assert Chunks(data) == [data[..n]] + Chunks(data[n..]);
    assert Received(z, s, data[..n]) == Receiver(data[..n], true, s.delivered);
  }

  // All chunks of a large enough compressed form, before the end marker.
  lemma Collected(z: Zstd, s: Receiver, data: Bytes)
    requires Reset(s) && |data| >= MAX_MESSAGE_SIZE
    ensures LastChunk(data) != EOF_MESSAGE ==>
      ReceivedAll(z, s, Chunks(data)) == Receiver(data, true, s.delivered)
    ensures LastChunk(data) == EOF_MESSAGE ==>
      ReceivedAll(z, s, Chunks(data)) == Received(z, Receiver(data[..|data| - 3], true, s.delivered), EOF_MESSAGE)
  {
    var n := MAX_MESSAGE_SIZE;
    FirstChunk(z, s, data);
    var s' := Receiver(data[..n], true, s.delivered);
    var rest := data[n..];
    assert data[..n] + rest == data;
    if |data| == n {
      assert LastChunk(data) == data && rest == [];
      assert data[..n] == data;
    } else {
      LastOfRest(data);
      Collecting(z, s', rest);
      if LastChunk(data) == EOF_MESSAGE {
        assert data[..n] + rest[..|rest| - 3] == data[..|data| - 3];
      }
    }
  }

  // What one message does to a reset receiver: it is reported as sent, delivered, and the receiver
  // is reset again exactly when the message is transmissible.
  lemma OneMessage(z: Zstd, s: Receiver, m: Bytes)
    requires Lossless(z) && Reset(s) && |m| <= INT_MAX
    ensures Sendable(z, m) && ReceivedAll(z, s, Sent(z, m)) == Receiver([], false, s.delivered + [m]) <==> Transmissible(z, m)
  {
    var s' := ReceivedAll(z, s, Sent(z, m));
    if |m| < MAX_MESSAGE_SIZE {
      ReceivedOne(z, s, m);
    } else if Sendable(z, m) {
      var data := z.compress(m);
      var collected := ReceivedAll(z, s, Chunks(data));
      ReceivedConcat(z, s, Chunks(data), [EOF_MESSAGE]);
      assert s' == Received(z, collected, EOF_MESSAGE);
      if |data| < MAX_MESSAGE_SIZE {
        TooShort(z, s, data);
        assert s'.delivered[|s.delivered|] != m || |s'.delivered| == |s.delivered| + 2;
      } else if LastChunk(data) == EOF_MESSAGE {
        Collected(z, s, data);
        EndsTwice(z, Receiver(data[..|data| - 3], true, s.delivered));
        assert s'.recvLargeChunk || |s'.delivered| == |s.delivered| + 2;
      } else {
        Collected(z, s, data);
        assert z.decompressedSize(data) == |m|;
        assert Uncompressed(z, data) == Some(m);
      }
    }
  }

  // A compressed form of less than a chunk arrives as it is, and so does the end marker.
  lemma TooShort(z: Zstd, s: Receiver, data: Bytes)
    requires Reset(s) && |data| < MAX_MESSAGE_SIZE
    ensures Received(z, ReceivedAll(z, s, Chunks(data)), EOF_MESSAGE).delivered
         == s.delivered + (if data == [] then [EOF_MESSAGE] else [data, EOF_MESSAGE])
  {
    if data != [] {
      OneChunk(data);
      ReceivedOne(z, s, data);
      assert s.delivered + [data] + [EOF_MESSAGE] == s.delivered + [data, EOF_MESSAGE];
    }
  }

  // A chunk that reads "EOF" ends the message early: then the end marker is either taken for a
  // message of its own or leaves the receiver collecting.
  lemma EndsTwice(z: Zstd, s: Receiver)
    requires s.recvLargeChunk
    ensures var s' := Received(z, Received(z, s, EOF_MESSAGE), EOF_MESSAGE);
      s'.recvLargeChunk || |s'.delivered| == |s.delivered| + 2
  {
  }

  function SentAll(z: Zstd, ms: seq<Bytes>): seq<Bytes>
    decreases |ms|
  {
    if ms == [] then [] else Sent(z, ms[0]) + SentAll(z, ms[1..])
  }

  // After each message it has been sent without error and just been delivered, and the receiver is reset.
  ghost predicate OneByOne(z: Zstd, s: Receiver, ms: seq<Bytes>)
    decreases |ms|
  {
    ms != [] ==>
      var s' := ReceivedAll(z, s, Sent(z, ms[0]));
      Sendable(z, ms[0]) && s' == Receiver([], false, s.delivered + [ms[0]]) && OneByOne(z, s', ms[1..])
  }

  ghost predicate AllTransmissible(z: Zstd, ms: seq<Bytes>) {
    forall m <- ms :: Transmissible(z, m)
  }

  // A whole stream gets through one by one exactly when every message is transmissible.
  lemma {:induction false} StreamDelivered(z: Zstd, s: Receiver, ms: seq<Bytes>)
    requires Lossless(z) && Reset(s) && forall m <- ms :: |m| <= INT_MAX
    ensures OneByOne(z, s, ms) <==> AllTransmissible(z, ms)
    ensures OneByOne(z, s, ms) ==> ReceivedAll(z, s, SentAll(z, ms)) == Receiver([], false, s.delivered + ms)
    decreases |ms|
  {
    if ms == [] {
      assert s.delivered + ms == s.delivered;
    } else {
      var m, rest := ms[0], ms[1..];
      assert ms == [m] + rest;
      assert AllTransmissible(z, ms) <==> Transmissible(z, m) && AllTransmissible(z, rest);
      OneMessage(z, s, m);
      if Transmissible(z, m) {
        var s' := Receiver([], false, s.delivered + [m]);
        StreamDelivered(z, s', rest);
        ReceivedConcat(z, s, Sent(z, m), SentAll(z, rest));
        assert s'.delivered + rest == s.delivered + ms;
      }
    }
  }

  // ---------------------------------------------------------------- messages that do not get through

  function Zeros(n: nat): Bytes {
    seq(n, _ => 0)
  }

  function Blank(): Bytes {
    Zeros(MAX_MESSAGE_SIZE)
  }

  // A lossless compressor: one message gets a short form, any other is marked and kept.
  function ShortForBlank(m: Bytes): Bytes {
    if m == Blank() then [1] else [0] + m
  }

  function SizeOf(data: Bytes): nat {
    if data == [1] then MAX_MESSAGE_SIZE else if data == [] then 0 else |data| - 1
  }

  function Expanded(data: Bytes, size: nat): Option<Bytes> {
    if SizeOf(data) > size then None
    else if data == [1] then Some(Blank())
    else if data == [] then None
    else Some(data[1..])
  }

  function Sample(): Zstd {
    Zstd(ShortForBlank, SizeOf, Expanded)
  }

  lemma ExpandsBack(m: Bytes, size: nat)
    requires |m| <= size
    ensures SizeOf(ShortForBlank(m)) == |m| && Expanded(ShortForBlank(m), size) == Some(m)
  {
    if m != Blank() {
      var data := [0] + m;
      assert data[0] == 0 && data[1..] == m;
    }
  }

  lemma SampleIsLossless()
    ensures Lossless(Sample())
  {
    var z := Sample();
    forall m: Bytes ensures z.decompressedSize(z.compress(m)) == |m| {
      ExpandsBack(m, |m|);
    }
    forall m: Bytes, size: nat | |m| <= size ensures z.decompress(z.compress(m), size) == Some(m) {
      ExpandsBack(m, size);
    }
  }

  // With it all three failures occur: a compressed form shorter than a chunk, one that ends with a
  // chunk that reads "EOF", and one that is an array but too long for the index.
  lemma NotTransmissible(s: Receiver)
    requires Reset(s)
    ensures var m := Blank()[1..] + EOF_MESSAGE;
      && Lossless(Sample()) && Sendable(Sample(), Blank()) && Sendable(Sample(), m)
      && |Sample().compress(Blank())| < MAX_MESSAGE_SIZE && LastChunk(Sample().compress(m)) == EOF_MESSAGE
      && ReceivedAll(Sample(), s, Sent(Sample(), Blank())) != Receiver([], false, s.delivered + [Blank()])
      && ReceivedAll(Sample(), s, Sent(Sample(), m)) != Receiver([], false, s.delivered + [m])
    ensures var huge := Zeros(INDEX_MAX);
      && INDEX_MAX < |Sample().compress(huge)| <= INT_MAX && !Sendable(Sample(), huge)
      && EOF_MESSAGE !in Sent(Sample(), huge)
  {
    var m := Blank()[1..] + EOF_MESSAGE;
    SampleIsLossless();
    var data := Sample().compress(m);
    assert |m| == MAX_MESSAGE_SIZE + 2 && data == [0] + m && |data| == MAX_MESSAGE_SIZE + 3;
    assert |data| % MAX_MESSAGE_SIZE == 3;
    assert data[|data| - 3..] == EOF_MESSAGE;
    OneMessage(Sample(), s, Blank());
    OneMessage(Sample(), s, m);
    HugeHasNoMarker();
  }

  // The call fails after the last chunk, and the marker is never sent.
  lemma HugeHasNoMarker()
    ensures var huge := Zeros(INDEX_MAX);
      && INDEX_MAX < |Sample().compress(huge)| <= INT_MAX && !Sendable(Sample(), huge)
      && EOF_MESSAGE !in Sent(Sample(), huge)
  {
    var huge := Zeros(INDEX_MAX);
    assert huge != Blank() && Sample().compress(huge) == [0] + huge;
    var data := [0] + huge;
    assert |data| % MAX_MESSAGE_SIZE == 1;
    ChunkSizes(data);
  }

  // Every chunk is full but the last one.
  lemma {:induction false} ChunkSizes(data: Bytes)
    ensures forall c <- Chunks(data) :: |c| == MAX_MESSAGE_SIZE || |c| == |data| % MAX_MESSAGE_SIZE
    decreases |data|
  {
    if data != [] {
      var n := Min(|data|, MAX_MESSAGE_SIZE);
      ChunkSizes(data[n..]);
      assert n == MAX_MESSAGE_SIZE ==> (|data| - MAX_MESSAGE_SIZE) % MAX_MESSAGE_SIZE == |data| % MAX_MESSAGE_SIZE;
    }
  }
}
