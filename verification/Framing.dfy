/**
 * Length-prefixed messages over a byte stream (modules/tcp/TCP.cc), plain and encrypted.
 * A send or recv call moves any positive number of bytes; both ends have the same byte order.
 */
module Framing {
  import opened ByteStrings
  import opened Encryptor

  const INT32_MAX: int := 0x7FFF_FFFF
  const AITT_MESSAGE_MAX: int := 268435455
  const ENOTCONN: int := 107
  const HEADER: int := 4

  type Int32 = n: int | -0x8000_0000 <= n < 0x8000_0000

  function Int32Bytes(n: Int32): (b: Bytes)
    ensures |b| == HEADER
  {
    var u := if n < 0 then n + 0x1_0000_0000 else n;
    var u1 := u / 0x100;
    var u2 := u1 / 0x100;
    var u3 := u2 / 0x100;
    [u % 0x100, u1 % 0x100, u2 % 0x100, u3]
  }

  function ParseInt32(b: Bytes): Int32
    requires |b| >= HEADER
  {
    var u := (b[0] as int) + 0x100 * (b[1] as int) + 0x1_0000 * (b[2] as int) + 0x100_0000 * (b[3] as int);
    if u > INT32_MAX then u - 0x1_0000_0000 else u
  }

  lemma Int32RoundTrip(n: Int32, rest: Bytes)
    ensures ParseInt32(Int32Bytes(n) + rest) == n
  {
    var u := if n < 0 then n + 0x1_0000_0000 else n;
    var b := Int32Bytes(n) + rest;
    assert (b[0] as int) + 0x100 * (b[1] as int) + 0x1_0000 * (b[2] as int) + 0x100_0000 * (b[3] as int) == u;
  }

  // The header is the number in two's complement, by place value with the lowest byte first; a length
  // below 256 is that byte and three zeros.
  lemma HeaderPlaces(n: Int32)
    ensures var b := Int32Bytes(n);
      (b[0] as int) + 0x100 * (b[1] as int) + 0x1_0000 * (b[2] as int) + 0x100_0000 * (b[3] as int)
        == if n < 0 then n + 0x1_0000_0000 else n
    ensures 0 <= n < 0x100 ==> Int32Bytes(n) == [n, 0, 0, 0]
  {
  }

  // A received header is read in the same way.
  lemma HeaderValue(b: Bytes)
    requires |b| >= HEADER
    ensures var u := (b[0] as int) + 0x100 * (b[1] as int) + 0x1_0000 * (b[2] as int) + 0x100_0000 * (b[3] as int);
      ParseInt32(b) == if u <= 0x7FFF_FFFF then u else u - 0x1_0000_0000
  {
  }

  // ---------------------------------------------------------------- the formats

  // An empty message announces INT32_MAX bytes and carries none.
  function Announced(payload: Bytes): Int32
    requires |payload| <= INT32_MAX
  {
    if payload == [] then INT32_MAX else |payload|
  }

  function NormalFrame(payload: Bytes): Bytes
    requires |payload| <= INT32_MAX
  {
    Int32Bytes(Announced(payload)) + payload
  }

  // On the wire: the length by places, or 0x7FFFFFFF for an empty message, and the payload as it is.
  lemma NormalFrameBytes(payload: Bytes)
    requires |payload| <= INT32_MAX
    ensures var f := NormalFrame(payload);
      && |f| == HEADER + |payload| && f[HEADER..] == payload
      && (f[0] as int) + 0x100 * (f[1] as int) + 0x1_0000 * (f[2] as int) + 0x100_0000 * (f[3] as int)
           == if payload == [] then 0x7FFF_FFFF else |payload|
  {
    HeaderPlaces(Announced(payload));
  }

  // What a receiver makes of the bytes before it, and the bytes it leaves.
  datatype Received =
    | Whole(payload: Bytes, rest: Bytes)
    | Truncated(announced: nat, arrived: Bytes)  // the stream ends inside the body
    | Refused(code: int, rest: Bytes)
    | NoHeader                                       // the stream ends inside the header

  function ParseNormal(bytes: Bytes): Received {
    if |bytes| < HEADER then NoHeader
    else
      var n, body := ParseInt32(bytes), bytes[HEADER..];
      if n == INT32_MAX then Whole([], body)
      else if n > AITT_MESSAGE_MAX then Refused(-1, body)
      else if n < 0 then Refused(n, body)
      else if |body| < n then Truncated(n, body)
      else Whole(body[..n], body[n..])
  }

  // A plain frame is read back as sent exactly when it is within the message limit.
  lemma NormalFrameReadBack(payload: Bytes, rest: Bytes)
    requires |payload| <= INT32_MAX
    ensures ParseNormal(NormalFrame(payload) + rest) == Whole(payload, rest) <==> |payload| <= AITT_MESSAGE_MAX
  {
    var bytes := NormalFrame(payload) + rest;
    var n := Announced(payload);
    assert bytes == Int32Bytes(n) + (payload + rest);
    Int32RoundTrip(n, payload + rest);
    assert bytes[HEADER..] == payload + rest;
    if |payload| <= AITT_MESSAGE_MAX {
      assert (payload + rest)[..|payload|] == payload && (payload + rest)[|payload|..] == rest;
    }
  }

  // When the peer closes after k bytes of a frame: nothing, a truncated message, or all of it.
  lemma CutFrame(payload: Bytes, k: nat)
    requires 0 < |payload| <= AITT_MESSAGE_MAX && k <= |NormalFrame(payload)|
    ensures ParseNormal(NormalFrame(payload)[..k]) ==
      if k < HEADER then NoHeader
      else if k < HEADER + |payload| then Truncated(|payload|, payload[..k - HEADER])
      else Whole(payload, [])
  {
    if k >= HEADER {
      var bytes := NormalFrame(payload)[..k];
      assert bytes == Int32Bytes(|payload|) + payload[..k - HEADER];
      Int32RoundTrip(|payload|, payload[..k - HEADER]);
    }
  }

  function NormalStream(payloads: seq<Bytes>): Bytes
    requires forall p <- payloads :: |p| <= INT32_MAX
  {
    if payloads == [] then [] else NormalFrame(payloads[0]) + NormalStream(payloads[1..])
  }

  // The payloads of the next `count` whole messages.
  function ReadNormal(bytes: Bytes, count: nat): seq<Bytes>
    decreases count
  {
    if count == 0 then []
    else match ParseNormal(bytes)
      case Whole(payload, rest) => [payload] + ReadNormal(rest, count - 1)
      case _ => []
  }

  lemma NormalStreamHead(payloads: seq<Bytes>, rest: Bytes)
    requires payloads != [] && forall p <- payloads :: |p| <= INT32_MAX
    ensures NormalStream(payloads) + rest == NormalFrame(payloads[0]) + (NormalStream(payloads[1..]) + rest)
  {
  }

  lemma NormalFrameAccepted(payload: Bytes, rest: Bytes, count: nat)
    requires |payload| <= AITT_MESSAGE_MAX
    ensures ReadNormal(NormalFrame(payload) + rest, count + 1) == [payload] + ReadNormal(rest, count)
  {
    NormalFrameReadBack(payload, rest);
  }

  // Every list of payloads within the limit is read back from the bytes sent for it.
  lemma {:induction false} NormalStreamReadBack(payloads: seq<Bytes>, rest: Bytes)
    requires forall p <- payloads :: |p| <= AITT_MESSAGE_MAX
    ensures ReadNormal(NormalStream(payloads) + rest, |payloads|) == payloads
  {
    if payloads != [] {
      NormalStreamReadBack(payloads[1..], rest);
      NormalStreamHead(payloads, rest);
      NormalFrameAccepted(payloads[0], NormalStream(payloads[1..]) + rest, |payloads| - 1);
    }
  }

  // ---------------------------------------------------------------- the encrypted format

  function Seal(cbc: Cbc, plain: Bytes): Bytes {
    cbc.encrypt(Pad(plain))
  }

  function SecureFrame(cbc: Cbc, payload: Bytes): Bytes
    requires |Seal(cbc, payload)| <= INT32_MAX
  {
    if payload == [] then Seal(cbc, Int32Bytes(INT32_MAX))
    else Seal(cbc, Int32Bytes(|Seal(cbc, payload)|)) + Seal(cbc, payload)
  }

  // On the wire: an encrypted header that announces the size of the encrypted body, or 0x7FFFFFFF for
  // an empty message and then no body; both are padded by 1 to 16 bytes that say how many they are.
  lemma SecureFrameBytes(cbc: Cbc, payload: Bytes)
    requires Lawful(cbc) && |payload| <= AITT_MESSAGE_MAX
    ensures |Seal(cbc, payload)| <= INT32_MAX
    ensures var size := if payload == [] then 0x7FFF_FFFF else (|payload| / 16 + 1) * 16;
      var pad := 16 - |payload| % 16;
      SecureFrame(cbc, payload)
        == cbc.encrypt(Int32Bytes(size) + [12, 12, 12, 12, 12, 12, 12, 12, 12, 12, 12, 12])
         + if payload == [] then [] else cbc.encrypt(payload + seq(pad, _ => pad))
  {
    SealSize(cbc, payload);
    var size := if payload == [] then 0x7FFF_FFFF else (|payload| / 16 + 1) * 16;
    var header: Bytes := Int32Bytes(size) + [12, 12, 12, 12, 12, 12, 12, 12, 12, 12, 12, 12];
    PadBytes(Int32Bytes(size));
    assert Pad(Int32Bytes(size)) == header;
    PadBytes(payload);
    var pad := 16 - |payload| % 16;
    assert Pad(payload) == payload + seq(pad, _ => pad);
  }

  const SECURE_HEADER: int := GetCryptogramSize(HEADER)

  ghost function SecureHeader(cbc: Cbc, bytes: Bytes): Int32
    requires Lawful(cbc) && |bytes| >= SECURE_HEADER
  {
    ParseInt32(cbc.decrypt(bytes[..SECURE_HEADER]))
  }

  // Headers after which the receiver decrypts whole blocks that have all arrived.
  ghost predicate SecureUsable(cbc: Cbc, bytes: Bytes)
    requires Lawful(cbc)
  {
    |bytes| >= SECURE_HEADER ==>
      var n := SecureHeader(cbc, bytes);
      && ScanStaysInside(cbc.decrypt(bytes[..SECURE_HEADER]))
      && (n <= AITT_MESSAGE_MAX ==>
        && 0 < n <= |bytes| - SECURE_HEADER && n % BLOCK_SIZE == 0
        && ScanStaysInside(cbc.decrypt(bytes[SECURE_HEADER..SECURE_HEADER + n])))
  }

  ghost function ParseSecure(cbc: Cbc, bytes: Bytes): Received
    requires Lawful(cbc) && SecureUsable(cbc, bytes)
  {
    if |bytes| < SECURE_HEADER then NoHeader
    else
      var n, body := SecureHeader(cbc, bytes), bytes[SECURE_HEADER..];
      if n == INT32_MAX then Whole([], body)
      else if n > AITT_MESSAGE_MAX then Refused(-1, body)
      else
        var buffer := cbc.decrypt(bytes[SECURE_HEADER..SECURE_HEADER + n]);
        var len := Unpad(buffer);
        if len < 0 then Refused(len, body[n..]) else Whole(buffer[..len], body[n..])
  }

  // Largest payload whose padded form still fits in a message.
  const SECURE_PAYLOAD_MAX: int := 268435439

  lemma SealSize(cbc: Cbc, plain: Bytes)
    requires Lawful(cbc)
    ensures |Seal(cbc, plain)| == GetCryptogramSize(|plain|) && |Seal(cbc, plain)| % BLOCK_SIZE == 0
    ensures |plain| < |Seal(cbc, plain)| <= |plain| + BLOCK_SIZE
    ensures |Seal(cbc, plain)| <= AITT_MESSAGE_MAX <==> |plain| <= SECURE_PAYLOAD_MAX
  {
    CryptogramSizeIsPaddedSize(plain);
  }

  lemma SecureHeaderReadBack(cbc: Cbc, n: Int32, rest: Bytes)
    requires Lawful(cbc)
    ensures var bytes := Seal(cbc, Int32Bytes(n)) + rest;
      && |bytes| >= SECURE_HEADER && bytes[SECURE_HEADER..] == rest && SecureHeader(cbc, bytes) == n
      && ScanStaysInside(cbc.decrypt(bytes[..SECURE_HEADER]))
  {
    var plain := Int32Bytes(n);
    SealSize(cbc, plain);
    var bytes := Seal(cbc, plain) + rest;
    assert bytes[..SECURE_HEADER] == Seal(cbc, plain);
    DecryptEncrypt(cbc, plain);
    var buffer := cbc.decrypt(Seal(cbc, plain));
    CryptogramSizeIsPaddedSize(plain);
    assert buffer == plain + buffer[HEADER..];
    Int32RoundTrip(n, buffer[HEADER..]);
  }

  // Every payload that may be published is read back up to 268435439 bytes; the 16 longer ones
  // are refused by the receiver, which leaves their body in the stream.
  lemma SecureFrameReadBack(cbc: Cbc, payload: Bytes, rest: Bytes)
    requires Lawful(cbc) && |payload| <= AITT_MESSAGE_MAX
    ensures |Seal(cbc, payload)| <= INT32_MAX
    ensures var bytes := SecureFrame(cbc, payload) + rest;
      && SecureUsable(cbc, bytes)
      && ParseSecure(cbc, bytes) ==
           if |payload| <= SECURE_PAYLOAD_MAX then Whole(payload, rest) else Refused(-1, Seal(cbc, payload) + rest)
  {
    SealSize(cbc, payload);
    if payload == [] {
      SecureHeaderReadBack(cbc, INT32_MAX, rest);
    } else {
      SecureBodyReadBack(cbc, payload, rest);
    }
  }

  lemma SecureBodyReadBack(cbc: Cbc, payload: Bytes, rest: Bytes)
    requires Lawful(cbc) && 0 < |payload| <= AITT_MESSAGE_MAX && |Seal(cbc, payload)| <= INT32_MAX
    ensures var bytes := SecureFrame(cbc, payload) + rest;
      && SecureUsable(cbc, bytes)
      && ParseSecure(cbc, bytes) ==
           if |payload| <= SECURE_PAYLOAD_MAX then Whole(payload, rest) else Refused(-1, Seal(cbc, payload) + rest)
  {
    SealSize(cbc, payload);
    var bytes, sealed := SecureFrame(cbc, payload) + rest, Seal(cbc, payload);
    var n := |sealed|;
    assert bytes == Seal(cbc, Int32Bytes(n)) + (sealed + rest);
    SecureHeaderReadBack(cbc, n, sealed + rest);
    assert bytes[SECURE_HEADER..SECURE_HEADER + n] == bytes[SECURE_HEADER..][..n] == sealed;
    assert bytes[SECURE_HEADER..][n..] == rest;
    DecryptEncrypt(cbc, payload);
  }

  ghost function SecureStream(cbc: Cbc, payloads: seq<Bytes>): Bytes
    requires Lawful(cbc) && forall p <- payloads :: |p| <= SECURE_PAYLOAD_MAX
  {
    if payloads == [] then []
    else
      SealSize(cbc, payloads[0]);
      SecureFrame(cbc, payloads[0]) + SecureStream(cbc, payloads[1..])
  }

  ghost function ReadSecure(cbc: Cbc, bytes: Bytes, count: nat): seq<Bytes>
    requires Lawful(cbc)
    decreases count
  {
    if count == 0 || !SecureUsable(cbc, bytes) then []
    else match ParseSecure(cbc, bytes)
      case Whole(payload, rest) => [payload] + ReadSecure(cbc, rest, count - 1)
      case _ => []
  }

  lemma SecureStreamHead(cbc: Cbc, payloads: seq<Bytes>, rest: Bytes)
    requires Lawful(cbc) && payloads != [] && forall p <- payloads :: |p| <= SECURE_PAYLOAD_MAX
    ensures |Seal(cbc, payloads[0])| <= INT32_MAX
    ensures SecureStream(cbc, payloads) + rest
         == SecureFrame(cbc, payloads[0]) + (SecureStream(cbc, payloads[1..]) + rest)
  {
    SealSize(cbc, payloads[0]);
  }

  lemma SecureFrameAccepted(cbc: Cbc, payload: Bytes, rest: Bytes, count: nat)
    requires Lawful(cbc) && |payload| <= SECURE_PAYLOAD_MAX
    requires |Seal(cbc, payload)| <= INT32_MAX
    ensures ReadSecure(cbc, SecureFrame(cbc, payload) + rest, count + 1) == [payload] + ReadSecure(cbc, rest, count)
  {
    SecureFrameReadBack(cbc, payload, rest);
    ReadSecureOne(cbc, SecureFrame(cbc, payload) + rest, payload, rest, count);
  }

  lemma {:induction false} SecureStreamReadBack(cbc: Cbc, payloads: seq<Bytes>, rest: Bytes)
    requires Lawful(cbc) && forall p <- payloads :: |p| <= SECURE_PAYLOAD_MAX
    ensures ReadSecure(cbc, SecureStream(cbc, payloads) + rest, |payloads|) == payloads
  {
    if payloads != [] {
      SecureStreamReadBack(cbc, payloads[1..], rest);
      SecureStreamHead(cbc, payloads, rest);
      SecureFrameAccepted(cbc, payloads[0], SecureStream(cbc, payloads[1..]) + rest, |payloads| - 1);
    }
  }

  lemma ReadSecureOne(cbc: Cbc, bytes: Bytes, payload: Bytes, rest: Bytes, count: nat)
    requires Lawful(cbc) && SecureUsable(cbc, bytes)
    requires ParseSecure(cbc, bytes) == Whole(payload, rest)
    ensures ReadSecure(cbc, bytes, count + 1) == [payload] + ReadSecure(cbc, rest, count)
  {
  }
}
