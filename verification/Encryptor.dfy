/**
 * Block padding and its check (modules/tcp/AESEncryptorMbedTLS.cc, AESEncryptor.cc). The CBC
 * transformation itself is any length-preserving invertible pair of functions (NIST SP 800-38A,
 * section 6.2); the padding is the one of RFC 5652, section 6.3.
 */
module Encryptor {
  import opened ByteStrings

  const BLOCK_SIZE: int := 16

  datatype Cbc = Cbc(encrypt: Bytes -> Bytes, decrypt: Bytes -> Bytes)

  ghost predicate Lawful(c: Cbc) {
    && (forall x {:trigger c.encrypt(x)} :: |x| % BLOCK_SIZE == 0 ==> |c.encrypt(x)| == |x| && c.decrypt(c.encrypt(x)) == x)
    && (forall x {:trigger c.decrypt(x)} :: |x| % BLOCK_SIZE == 0 ==> |c.decrypt(x)| == |x|)
  }

  function GetCryptogramSize(plainSize: nat): nat {
    (plainSize / BLOCK_SIZE + 1) * BLOCK_SIZE
  }

  function PaddingLen(plainSize: nat): (n: Byte)
    ensures 1 <= n <= BLOCK_SIZE
  {
    BLOCK_SIZE - plainSize % BLOCK_SIZE
  }

  function Pad(plain: Bytes): Bytes {
    plain + seq(PaddingLen(|plain|), _ => PaddingLen(|plain|))
  }

  // The size announced in advance is the size produced: whole blocks, at least one byte more.
  lemma CryptogramSizeIsPaddedSize(plain: Bytes)
    ensures |Pad(plain)| == GetCryptogramSize(|plain|)
    ensures |Pad(plain)| % BLOCK_SIZE == 0 && |plain| < |Pad(plain)| <= |plain| + BLOCK_SIZE
  {
    var n := |plain|;
    assert n == n / BLOCK_SIZE * BLOCK_SIZE + n % BLOCK_SIZE;
  }

  // The message, and behind it 1 to 16 bytes that say how many they are and fill the block.
  lemma PadBytes(plain: Bytes)
    ensures var n := 16 - |plain| % 16;
      && 1 <= n <= 16 && |Pad(plain)| == |plain| + n && Pad(plain)[..|plain|] == plain
      && forall k :: |plain| <= k < |Pad(plain)| ==> Pad(plain)[k] == n
  {
  }

  // The last n bytes all equal n.
  ghost predicate EndsWith(buffer: Bytes, n: nat, value: Byte) {
    n <= |buffer| && forall k :: |buffer| - n <= k < |buffer| ==> buffer[k] == value
  }

  // The check reads no byte before the buffer.
  ghost predicate ScanStaysInside(buffer: Bytes)
    requires buffer != []
  {
    var last := buffer[|buffer| - 1];
    last <= |buffer| || exists k :: 0 <= k < |buffer| && buffer[k] != last
  }

  // The length of the message in a decrypted buffer, or -1.
  ghost function Unpad(buffer: Bytes): int
    requires buffer != []
  {
    var last := buffer[|buffer| - 1];
    if EndsWith(buffer, last, last) then |buffer| - last else -1
  }

  lemma UnpadPad(plain: Bytes)
    ensures Unpad(Pad(plain)) == |plain| && Pad(plain)[..|plain|] == plain
    ensures ScanStaysInside(Pad(plain))
  {
    CryptogramSizeIsPaddedSize(plain);
  }

  // Apart from a final zero byte, which is taken as no padding at all, the only whole-block
  // buffers accepted with padding of at most one block are the padded messages.
  lemma AcceptedIsPadded(buffer: Bytes)
    requires buffer != [] && |buffer| % BLOCK_SIZE == 0
    requires 1 <= buffer[|buffer| - 1] <= BLOCK_SIZE
    ensures Unpad(buffer) != -1 <==> exists plain :: Pad(plain) == buffer
    ensures Unpad(buffer) != -1 ==> Pad(buffer[..Unpad(buffer)]) == buffer
  {
    var last := buffer[|buffer| - 1];
    if Unpad(buffer) != -1 {
      var plain := buffer[..|buffer| - last];
      assert PaddingLen(|plain|) == last;
      assert Pad(plain) == buffer;
    }
    forall plain | Pad(plain) == buffer ensures Unpad(buffer) != -1 {
      UnpadPad(plain);
    }
  }

  class AESEncryptorMbedTLS {
    var keyed: bool
    var cbc: Cbc

    constructor (cbc: Cbc)
      ensures !keyed && this.cbc == cbc
    {
      keyed, this.cbc := false, cbc;
    }

    // `cbc` stands for the cipher under this key and initialisation vector.
    method Init(cbc: Cbc)
      modifies this
      ensures keyed && this.cbc == cbc
    {
      keyed, this.cbc := true, cbc;
    }

    method Encrypt(plaintext: Bytes) returns (len: int, ciphertext: Bytes)
      requires Lawful(cbc)
      ensures !keyed ==> len == -1
      ensures keyed ==> ciphertext == cbc.encrypt(Pad(plaintext)) && len == |ciphertext| == GetCryptogramSize(|plaintext|)
    {
      if !keyed {
        return -1, [];
      }
      var paddingLen := BLOCK_SIZE - |plaintext| % BLOCK_SIZE;
      var paddingBuffer := new Byte[|plaintext| + paddingLen];
      forall i | 0 <= i < |plaintext| {
        paddingBuffer[i] := plaintext[i];
      }
      for i := 0 to paddingLen
        invariant forall k :: 0 <= k < |plaintext| ==> paddingBuffer[k] == plaintext[k]
        invariant forall k :: |plaintext| <= k < |plaintext| + i ==> paddingBuffer[k] == paddingLen
      {
        paddingBuffer[|plaintext| + i] := paddingLen;
      }
      assert paddingBuffer[..] == Pad(plaintext);
      CryptogramSizeIsPaddedSize(plaintext);
      ciphertext := cbc.encrypt(paddingBuffer[..]);
      len := |plaintext| + paddingLen;
    }

    // `before` is what the output buffer holds already. `inside` says that the padding check reads
    // nothing but the buffer; otherwise the code's result is not defined.
    method Decrypt(ciphertext: Bytes, before: Bytes) returns (len: int, plaintext: Bytes, inside: bool)
      requires Lawful(cbc) && |before| == |ciphertext|
      ensures !keyed ==> len == -1 && plaintext == before && inside
      ensures keyed ==>
        && plaintext == Deciphered(cbc, ciphertext, before)
        && (inside <==> plaintext != [] && ScanStaysInside(plaintext))
        && (inside ==> len == Unpad(plaintext))
      // whole blocks are decrypted, anything else leaves the buffer; the last byte says how many bytes
      // equal to it are to be cut off, and -1 is returned when there are not so many
      ensures keyed ==> plaintext == if |ciphertext| % 16 == 0 then cbc.decrypt(ciphertext) else before
      ensures keyed && inside ==>
        var n := plaintext[|plaintext| - 1];
        if n <= |plaintext| && (forall k :: |plaintext| - n <= k < |plaintext| ==> plaintext[k] == n) then len == |plaintext| - n
        else len == -1
    {
      if !keyed {
        return -1, before, true;
      }
      plaintext := Deciphered(cbc, ciphertext, before);
      len, inside := CheckPadding(plaintext);
    }
  }

  // The cipher refuses partial blocks and then leaves the output buffer alone.
  function Deciphered(cbc: Cbc, ciphertext: Bytes, before: Bytes): Bytes {
    if |ciphertext| % BLOCK_SIZE == 0 then cbc.decrypt(ciphertext) else before
  }

  method CheckPadding(plaintext: Bytes) returns (len: int, inside: bool)
    ensures inside <==> plaintext != [] && ScanStaysInside(plaintext)
    ensures inside ==> len == Unpad(plaintext)
  {
    if plaintext == [] {
      return -1, false;
    }
    var paddingSize := plaintext[|plaintext| - 1];
    for i := 0 to paddingSize
      invariant EndsWith(plaintext, i, paddingSize)
    {
      var loc := |plaintext| - 1 - i;
      if loc < 0 {
        return -1, false;
      }
      if plaintext[loc] != paddingSize {
        return -1, true;
      }
    }
    return |plaintext| - paddingSize, true;
  }

  // Decrypting what was encrypted gives the message and its length back.
  lemma DecryptEncrypt(cbc: Cbc, plain: Bytes)
    requires Lawful(cbc)
    ensures
      var buffer := cbc.decrypt(cbc.encrypt(Pad(plain)));
      buffer != [] && Unpad(buffer) == |plain| && buffer[..|plain|] == plain && ScanStaysInside(buffer)
  {
    CryptogramSizeIsPaddedSize(plain);
    UnpadPad(plain);
  }
}
