/**
 * The connection object of modules/tcp/TCP.cc: loops over partial send and recv calls, plain and
 * encrypted messages. The formats and what they guarantee are in module Framing.
 */
module TcpConnection {
  import opened Results
  import opened ByteStrings
  import opened Encryptor
  import opened Framing

  class TCP {
    var outgoing: Bytes   // what send has taken
    var incoming: Bytes   // what recv will still give before the peer closes
    const faulty: bool        // whether a call may fail for another reason
    var secure: bool
    const crypto: AESEncryptorMbedTLS

    // `cipher` stands for the key and initialisation vector of a secure connection.
    constructor (cipher: Option<Cbc>, crypto: AESEncryptorMbedTLS, incoming: Bytes, faulty: bool)
      modifies crypto
      ensures this.crypto == crypto && this.faulty == faulty
      ensures outgoing == [] && this.incoming == incoming
      ensures secure <==> cipher.Some?
      ensures cipher.Some? && Lawful(cipher.value) ==> Keyed() && crypto.cbc == cipher.value
    {
      this.secure, this.crypto, this.faulty, outgoing, this.incoming := false, crypto, faulty, [], incoming;
      new;
      SetupOptions(cipher);
    }

    method SetupOptions(cipher: Option<Cbc>)
      requires !secure
      modifies this`secure, crypto
      ensures secure <==> cipher.Some?
      ensures if cipher.Some? then crypto.keyed && crypto.cbc == cipher.value
              else crypto.keyed == old(crypto.keyed) && crypto.cbc == old(crypto.cbc)
    {
      if cipher.Some? {
        secure := true;
        crypto.Init(cipher.value);
      }
    }

    ghost predicate Keyed() reads crypto {
      crypto.keyed && Lawful(crypto.cbc)
    }

    // The send call: a negative result, or some of the bytes.
    method SendSome(data: Bytes) returns (ret: int)
      requires data != []
      modifies this`outgoing
      ensures if ret < 0 then faulty && outgoing == old(outgoing) else 1 <= ret <= |data| && outgoing == old(outgoing) + data[..ret]
    {
      var failed: bool :| failed ==> faulty;
      if failed {
        return -1;
      }
      ret :| 1 <= ret <= |data|;
      outgoing := outgoing + data[..ret];
    }

    // The recv call: a negative result, zero when the peer has closed, or some of the bytes.
    method RecvSome(max: int) returns (ret: int, data: Bytes)
      requires max > 0
      modifies this`incoming
      ensures ret < 0 ==> faulty && incoming == old(incoming)
      ensures ret == 0 ==> old(incoming) == [] == incoming
      ensures ret > 0 ==> |data| == ret <= max && old(incoming) == data + incoming
    {
      var failed: bool :| failed ==> faulty;
      if failed {
        return -1, [];
      }
      if incoming == [] {
        return 0, [];
      }
      ret :| 1 <= ret <= max && ret <= |incoming|;
      data := incoming[..ret];
      incoming := incoming[ret..];
    }

    method Send(data: Bytes) returns (ok: bool)
      modifies this`outgoing
      ensures ok ==> outgoing == old(outgoing) + data
      ensures !ok ==> faulty && exists k :: 0 <= k < |data| && outgoing == old(outgoing) + data[..k]
    {
      var sent := 0;
      while sent < |data|
        invariant 0 <= sent <= |data| && outgoing == old(outgoing) + data[..sent]
      {
        var ret := SendSome(data[sent..]);
        if ret < 0 {
          return false;
        }
        assert data[..sent] + data[sent..][..ret] == data[..sent + ret];
        sent := sent + ret;
      }
      assert data[..sent] == data;
      return true;
    }

    // Fills a buffer of the given size, whose initial content is arbitrary.
    method Recv(size: int) returns (ret: int, data: Bytes)
      modifies this`incoming
      ensures size < 0 ==> ret == 0 && data == [] && incoming == old(incoming)
      ensures size >= 0 ==>
        && |data| == size
        && (ret < 0 || ret == size)
        && (ret == size ==> old(incoming) == data + incoming)
        && (ret < 0 && !faulty ==> ret == -ENOTCONN && |old(incoming)| < size && old(incoming) <= data && incoming == [])
        && (size <= |old(incoming)| && !faulty ==> ret == size)
        && PartFrom(data, old(incoming), incoming)
    {
      if size < 0 {
        return 0, [];
      }
      var buffer := new Byte[size];
      var received := 0;
      while received < size
        invariant 0 <= received <= size && old(incoming) == buffer[..received] + incoming
      {
        var n, chunk := RecvSome(size - received);
        if n < 0 {
          PartReceived(buffer[..], received, old(incoming), incoming);
          return -1, buffer[..];
        }
        if n == 0 {
          assert buffer[..received] == old(incoming);
          PartReceived(buffer[..], received, old(incoming), incoming);
          return -ENOTCONN, buffer[..];
        }
        ghost var before := buffer[..received];
        forall i | 0 <= i < n {
          buffer[received + i] := chunk[i];
        }
        assert buffer[..received + n] == before + chunk;
        received := received + n;
      }
      assert buffer[..received] == buffer[..];
      PartReceived(buffer[..], received, old(incoming), incoming);
      return received, buffer[..];
    }

    method SendSizedDataNormal(data: Bytes) returns (ok: bool)
      requires |data| <= INT32_MAX
      modifies this`outgoing
      ensures ok ==> outgoing == old(outgoing) + NormalFrame(data)
      ensures !ok ==> faulty
    {
      var fixedDataSize := |data|;
      if |data| == 0 {
        fixedDataSize := INT32_MAX;
      }
      ok := Send(Int32Bytes(fixedDataSize));
      if ok {
        ok := Send(data);
        assert outgoing == old(outgoing) + Int32Bytes(fixedDataSize) + data
            == old(outgoing) + (Int32Bytes(fixedDataSize) + data) || !ok;
      }
    }

    // The result of receiving the body is not looked at: a message cut short by the peer is
    // reported with its announced length.
    method RecvSizedDataNormal() returns (ret: int, data: Bytes)
      modifies this`incoming
      ensures !faulty ==> match ParseNormal(old(incoming))
        case Whole(payload, rest) => ret == |payload| && data == payload && incoming == rest
        case Truncated(announced, arrived) => ret == announced == |data| && arrived <= data && incoming == []
        case Refused(code, rest) => ret == code < 0 && incoming == rest
        case NoHeader => ret == -ENOTCONN && incoming == []
      ensures !faulty && |old(incoming)| >= 4 ==>
        var n := ParseInt32(old(incoming));
        && (n == 0x7FFF_FFFF ==> ret == 0 && data == [] && incoming == old(incoming)[4..])
        && (268435455 < n < 0x7FFF_FFFF ==> ret == -1 && incoming == old(incoming)[4..])
        && (n <= 268435455 ==> ret == n)
      // when calls fail: an error, or what a header that came through announces
      ensures faulty && ret >= 0 ==>
        && |old(incoming)| >= HEADER
        && var n := ParseInt32(old(incoming)); if n == INT32_MAX then ret == 0 && data == [] else ret == n == |data|
    {
      var header;
      ret, header := Recv(HEADER);
      if ret < 0 {
        return ret, [];
      }
      var dataLen := ParseInt32(header);
      ghost var bytes := old(incoming);
      assert bytes[..HEADER] == header && bytes[HEADER..] == incoming;
      assert ParseInt32(bytes) == dataLen;
      if dataLen == INT32_MAX {
        return 0, [];
      }
      if AITT_MESSAGE_MAX < dataLen {
        return -1, [];
      }
      ghost var body := incoming;
      var _, buffer := Recv(dataLen);
      if 0 <= dataLen <= |body| && !faulty {
        assert body[..dataLen] == buffer && body[dataLen..] == incoming;
      }
      return dataLen, buffer;
    }

    method SendSizedDataSecure(data: Bytes) returns (ok: bool)
      requires Keyed() && |data| <= AITT_MESSAGE_MAX
      modifies this`outgoing
      ensures |Seal(crypto.cbc, data)| <= INT32_MAX
      ensures ok ==> outgoing == old(outgoing) + SecureFrame(crypto.cbc, data)
      ensures !ok ==> faulty
    {
      SealSize(crypto.cbc, data);
      if data != [] {
        var dataLen, dataBuf := crypto.Encrypt(data);
        var _, sizeBuf := crypto.Encrypt(Int32Bytes(dataLen));
        ok := Send(sizeBuf);
        if ok {
          ok := Send(dataBuf);
          assert ok ==> outgoing == old(outgoing) + (sizeBuf + dataBuf);
        }
      } else {
        var _, sizeBuf := crypto.Encrypt(Int32Bytes(INT32_MAX));
        ok := Send(sizeBuf);
      }
    }

    // `inside` says that no padding check left its buffer; otherwise the code's result is not defined.
    // A body that does not arrive in full is decrypted with whatever the buffer held before.
    method RecvSizedDataSecure() returns (ret: int, data: Bytes, inside: bool)
      requires Keyed()
      modifies this`incoming
      ensures !faulty && SecureUsable(crypto.cbc, old(incoming)) ==> inside && match ParseSecure(crypto.cbc, old(incoming))
        case Whole(payload, rest) => ret == |payload| && ret <= |data| && data[..ret] == payload && incoming == rest
        case Refused(code, rest) => ret == code < 0 && incoming == rest
        case NoHeader => ret == -ENOTCONN && incoming == []
        case Truncated(_, _) => false
      // whatever calls fail: data is a decrypted body, filled from the stream as far as calls succeeded
      ensures data != [] ==>
        && |old(incoming)| >= SECURE_HEADER
        && var n := SecureHeader(crypto.cbc, old(incoming));
           && 0 < n <= AITT_MESSAGE_MAX
           && exists received: Bytes, before: Bytes ::
                && |received| == |before| == n && PartFrom(received, old(incoming)[SECURE_HEADER..], incoming)
                && data == Deciphered(crypto.cbc, received, before)
                && (inside <==> ScanStaysInside(data))
      ensures data != [] && inside ==> ret == Unpad(data) <= |data|
      ensures !faulty && data != [] && |data| > |old(incoming)| - SECURE_HEADER ==> incoming == []
      ensures data == [] && inside ==> ret <= 0
      // and nothing undefined happens unless a header or body is decrypted that is not well padded
      ensures !inside && data == [] ==>
        |old(incoming)| >= SECURE_HEADER && (SecureHeader(crypto.cbc, old(incoming)) <= 0 || !ScanStaysInside(crypto.cbc.decrypt(old(incoming)[..SECURE_HEADER])))
    {
      ghost var bytes := incoming;
      var cipherDataLen;
      ret, cipherDataLen, inside := RecvSecureHeader();
      if ret < 0 {
        return ret, [], inside;
      }
      if cipherDataLen == INT32_MAX {
        return 0, [], true;
      }
      if AITT_MESSAGE_MAX < cipherDataLen {
        return -1, [], true;
      }
      BodyFollowsHeader(bytes, cipherDataLen);
      ret, data, inside := RecvBody(cipherDataLen);
    }

    // The encrypted length; `ret` is negative when there is none.
    method RecvSecureHeader() returns (ret: int, cipherDataLen: Int32, inside: bool)
      requires Keyed()
      modifies this`incoming
      ensures ret < 0 && inside ==> faulty || (ret == -ENOTCONN && |old(incoming)| < SECURE_HEADER && incoming == [])
      ensures !inside ==> ret < 0
      ensures !inside ==>
        |old(incoming)| >= SECURE_HEADER && !ScanStaysInside(crypto.cbc.decrypt(old(incoming)[..SECURE_HEADER]))
      ensures ret >= 0 ==>
        && |old(incoming)| >= SECURE_HEADER && incoming == old(incoming)[SECURE_HEADER..]
        && cipherDataLen == SecureHeader(crypto.cbc, old(incoming))
    {
      var cipherSize;
      ret, cipherSize := Recv(GetCryptogramSize(HEADER));
      if ret < 0 {
        return ret, 0, true;
      }
      assert old(incoming)[..SECURE_HEADER] == cipherSize && old(incoming)[SECURE_HEADER..] == incoming;
      var unset := seq(SECURE_HEADER, _ => 0);
      var plainSize;
      ret, plainSize, inside := crypto.Decrypt(cipherSize, unset);
      if !inside {
        return -1, 0, false;
      }
      return 0, ParseInt32(plainSize), true;   // the outcome of the padding check is not used
    }

    // The body of the announced size, decrypted.
    method RecvBody(n: int) returns (ret: int, data: Bytes, inside: bool)
      requires Keyed()
      modifies this`incoming
      ensures n <= 0 ==> !inside && data == []
      ensures n > 0 ==>
        exists received: Bytes, before: Bytes ::
          && |received| == |before| == n && PartFrom(received, old(incoming), incoming)
          && data == Deciphered(crypto.cbc, received, before) && |data| == n
          && (inside <==> ScanStaysInside(data))
      ensures data != [] && inside ==> ret == Unpad(data)
      ensures !faulty && n > |old(incoming)| ==> incoming == []
      ensures !faulty && 0 < n <= |old(incoming)| && n % BLOCK_SIZE == 0 ==>
        data == crypto.cbc.decrypt(old(incoming)[..n]) && incoming == old(incoming)[n..]
    {
      var _, cipherData := Recv(n);
      if n <= 0 {
        return -1, [], false;
      }
      var before := seq(n, _ => 0);
      ret, data, inside := crypto.Decrypt(cipherData, before);
    }
  }

  lemma BodyFollowsHeader(bytes: Bytes, n: int)
    requires |bytes| >= SECURE_HEADER
    ensures 0 < n <= |bytes| - SECURE_HEADER ==>
      bytes[SECURE_HEADER..][..n] == bytes[SECURE_HEADER..SECURE_HEADER + n]
  {
  }

  // The first bytes of the buffer are what has been taken from the stream.
  ghost predicate PartFrom(buffer: Bytes, stream: Bytes, left: Bytes) {
    exists k :: 0 <= k <= |buffer| && TakenOf(buffer, k, stream, left)
  }

  ghost predicate TakenOf(buffer: Bytes, k: nat, stream: Bytes, left: Bytes) {
    k <= |buffer| && stream == buffer[..k] + left
  }

  lemma PartReceived(buffer: Bytes, k: nat, stream: Bytes, left: Bytes)
    requires k <= |buffer| && stream == buffer[..k] + left
    ensures PartFrom(buffer, stream, left)
  {
    assert TakenOf(buffer, k, stream, left);
  }
}
