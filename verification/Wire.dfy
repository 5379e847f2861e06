/**
 The bytes of a datagram: type byte, 8-byte little-endian counter, ciphertext and 16-byte tag, with
 the counter doubling as the nonce. The cipher itself is a parameter.
 */
module Wire {
  import opened Words
  import opened Arithmetic

  const COUNTER_BYTES: nat := 8
  const NONCE_BYTES: nat := 12
  const TAG_BYTES: nat := 16
  const PACKET_OVERHEAD: nat := 24
  const PUBLIC_KEY_BYTES: nat := 32

  type Bytes = seq<Byte>

  /** ChaCha20-Poly1305 as section 2.8 of RFC 8439 uses it, without additional data:
      (key, nonce, plaintext) to ciphertext with tag, and back; and what a decryption that fails leaves
      where the plaintext would have gone. */
  datatype Cipher = Cipher(encrypt: (Bytes, Bytes, Bytes) -> Bytes, decrypt: (Bytes, Bytes, Bytes) -> Option<Bytes>,
                           leftover: (Bytes, Bytes, Bytes) -> Bytes)

  /** Decryption accepts a ciphertext exactly when it is the encryption of what it returns. */
  ghost predicate Sound(e: Cipher) {
    forall k: Bytes, n: Bytes, p: Bytes ::
      && |e.encrypt(k, n, p)| == |p| + TAG_BYTES
      && (|p| >= TAG_BYTES ==> |e.leftover(k, n, p)| == |p| - TAG_BYTES)
      && forall c: Bytes :: e.decrypt(k, n, c) == Some(p) <==> c == e.encrypt(k, n, p)
  }

  // ---------------------------------------------------------------- counters as bytes

  function Pow256(i: nat): (r: nat)
    ensures r > 0
  {
    if i == 0 then 1 else 256 * Pow256(i - 1)
  }

  /** `(unsigned char)(c >> (8 * i))`. */
  function ByteAt(c: nat, i: nat): Byte {
    c / Pow256(i) % 256
  }

  function Encode(c: nat, n: nat): Bytes {
    if n == 0 then [] else [c % 256] + Encode(c / 256, n - 1)
  }

  function Decode(bs: Bytes): nat {
    if bs == [] then 0 else bs[0] + 256 * Decode(bs[1..])
  }

  lemma {:induction false} EncodeAt(c: nat, n: nat, i: nat)
    requires i < n
    ensures |Encode(c, n)| == n && Encode(c, n)[i] == ByteAt(c, i)
  {
    if n == 1 {
    } else {
      EncodeAt(c / 256, n - 1, if i == 0 then 0 else i - 1);
    }
    if i > 0 {
      DivPow(c, i);
    }
  }

  lemma DivPow(c: nat, i: nat)
    requires i > 0
    ensures c / Pow256(i) == c / 256 / Pow256(i - 1)
  {
    DivDiv(c, 256, Pow256(i - 1));
  }

  lemma {:induction false} EncodeDecode(bs: Bytes)
    ensures Decode(bs) < Pow256(|bs|)
    ensures Encode(Decode(bs), |bs|) == bs
  {
    if bs == [] {
    } else {
      EncodeDecode(bs[1..]);
    }
  }

  lemma {:induction false} DecodeEncode(c: nat, n: nat)
    requires c < Pow256(n)
    ensures Decode(Encode(c, n)) == c
  {
    if n == 0 {
    } else {
      DecodeEncode(c / 256, n - 1);
    }
  }

  lemma PowEight()
    ensures Pow256(8) == TWO_TO_THE_64
  {
    assert Pow256(4) == 0x1_0000_0000;
  }

  // ---------------------------------------------------------------- crypto.c

  function Nonce(counter: U64): Bytes {
    Encode(counter, COUNTER_BYTES) + [0, 0, 0, 0]
  }

  /** The bytes of a packet: counter, ciphertext, tag. */
  function Packet(e: Cipher, key: Bytes, counter: U64, plain: Bytes): Bytes {
    Encode(counter, COUNTER_BYTES) + e.encrypt(key, Nonce(counter), plain)
  }

  method FillCounter(counter: U64, out: array<Byte>, at: nat)
    requires at + COUNTER_BYTES <= out.Length
    modifies out
    ensures out[..] == old(out[..at]) + Encode(counter, COUNTER_BYTES) + old(out[at + COUNTER_BYTES..])
  {
    for i := 0 to COUNTER_BYTES
      invariant forall j | 0 <= j < out.Length ::
        out[j] == if at <= j < at + i then ByteAt(counter, j - at) else old(out[j])
    {
      out[at + i] := counter / Pow256(i) % 256;
    }
    forall j: nat | j < COUNTER_BYTES
      ensures |Encode(counter, COUNTER_BYTES)| == COUNTER_BYTES && out[at + j] == Encode(counter, COUNTER_BYTES)[j]
    {
      EncodeAt(counter, COUNTER_BYTES, j);
    }
    EncodeAt(counter, COUNTER_BYTES, 0);
  }

  /** build_nonce. */
  method BuildNonce(counter: U64) returns (nonce: array<Byte>)
    ensures fresh(nonce) && nonce[..] == Nonce(counter)
  {
    nonce := new Byte[NONCE_BYTES](_ => 0);
    FillCounter(counter, nonce, 0);
  }

  /** crypto_seal, writing at `out + at` with `outLen` bytes of room. */
  method Seal(e: Cipher, key: Bytes, counter: U64, plain: Bytes, out: array<Byte>, at: nat, outLen: nat)
    returns (n: int)
    requires Sound(e) && at + outLen <= out.Length
    modifies out
    ensures n == if outLen < |plain| + PACKET_OVERHEAD then -1 else |plain| + PACKET_OVERHEAD
    ensures n == -1 ==> out[..] == old(out[..])
    ensures n != -1 ==>
              at + n <= out.Length && out[..] == old(out[..at]) + Packet(e, key, counter, plain) + old(out[at + n..])
  {
    if outLen < |plain| + PACKET_OVERHEAD {
      return -1;
    }
    var nonce := BuildNonce(counter);
    FillCounter(counter, out, at);
    label filled:
    var text := e.encrypt(key, nonce[..], plain);
    for i := 0 to |text|
      invariant forall j | 0 <= j < out.Length ::
        out[j] == if at + COUNTER_BYTES <= j < at + COUNTER_BYTES + i then text[j - at - COUNTER_BYTES]
            else old@filled(out[j])
    {
      out[at + COUNTER_BYTES + i] := text[i];
    }
    EncodeAt(counter, COUNTER_BYTES, 0);
    return COUNTER_BYTES + |text|;
  }

  /** crypto_open: the counter and plaintext of a packet, when it authenticates and fits. */
  function OpenPacket(e: Cipher, key: Bytes, packet: Bytes, room: nat): Option<(U64, Bytes)> {
    if |packet| < PACKET_OVERHEAD then None
    else
      PowEight();
      EncodeDecode(packet[..COUNTER_BYTES]);
      var counter := Decode(packet[..COUNTER_BYTES]);
      if room < |packet| - COUNTER_BYTES - TAG_BYTES then None
      else match e.decrypt(key, Nonce(counter), packet[COUNTER_BYTES..])
        case None => None
        case Some(plain) => Some((counter, plain))
  }

  lemma {:induction false} DecodeSnoc(bs: Bytes, b: Byte)
    ensures Decode(bs + [b]) == Decode(bs) + b * Pow256(|bs|)
  {
    if bs == [] {
    } else {
      DecodeSnoc(bs[1..], b);
      assert (bs + [b])[1..] == bs[1..] + [b];
    }
  }

  method WriteFront(text: Bytes, out: array<Byte>)
    requires |text| <= out.Length
    modifies out
    ensures out[..] == text + old(out[|text|..])
  {
    for i := 0 to |text|
      invariant forall j | 0 <= j < out.Length :: out[j] == if j < i then text[j] else old(out[j])
    {
      out[i] := text[i];
    }
  }

  /** The refusals that come before the cipher is called. */
  predicate Misfits(packet: Bytes, room: nat) {
    |packet| < PACKET_OVERHEAD || room < |packet| - PACKET_OVERHEAD
  }

  method ReadCounter(packet: Bytes) returns (counter: U64)
    requires |packet| >= COUNTER_BYTES
    ensures counter == Decode(packet[..COUNTER_BYTES])
  {
    var c: nat := 0;
    for i := 0 to COUNTER_BYTES
      invariant c == Decode(packet[..i])
    {
      DecodeSnoc(packet[..i], packet[i]);
      assert packet[..i] + [packet[i]] == packet[..i + 1];
      c := c + packet[i] * Pow256(i);
    }
    PowEight();
    EncodeDecode(packet[..COUNTER_BYTES]);
    return c;
  }

  /** crypto_open. A packet that does not fit leaves the buffer alone; one that fails to authenticate leaves
      there what the cipher leaves, and nothing beyond the length of its plaintext. */
  method Open(e: Cipher, key: Bytes, packet: Bytes, out: array<Byte>) returns (n: int, counter: U64)
    requires Sound(e)
    modifies out
    ensures n == match OpenPacket(e, key, packet, out.Length) case None => -1 case Some(_) => |packet| - PACKET_OVERHEAD
    ensures Misfits(packet, out.Length) ==> out[..] == old(out[..])
    ensures !Misfits(packet, out.Length) ==> out[|packet| - PACKET_OVERHEAD..] == old(out[|packet| - PACKET_OVERHEAD..])
    ensures n != -1 ==> (counter, out[..n]) == OpenPacket(e, key, packet, out.Length).value
  {
    counter := 0;
    if |packet| < PACKET_OVERHEAD {
      return -1, 0;
    }
    var c := ReadCounter(packet);
    var nonce := BuildNonce(c);
    if out.Length < |packet| - COUNTER_BYTES - TAG_BYTES {
      return -1, 0;
    }
    var plain := e.decrypt(key, nonce[..], packet[COUNTER_BYTES..]);
    if plain.None? {
      WriteFront(e.leftover(key, nonce[..], packet[COUNTER_BYTES..]), out);
      return -1, 0;
    }
    assert packet[COUNTER_BYTES..] == e.encrypt(key, nonce[..], plain.value);
    WriteFront(plain.value, out);
    return |plain.value|, c;
  }

  // ---------------------------------------------------------------- what the format guarantees

  /** Opening accepts exactly the packets sealed under the key, and gives back what was sealed. */
  lemma OpensExactlyWhatWasSealed(e: Cipher, key: Bytes, packet: Bytes, room: nat, counter: U64, plain: Bytes)
    requires Sound(e)
    ensures OpenPacket(e, key, packet, room) == Some((counter, plain))
       <==> packet == Packet(e, key, counter, plain) && |plain| <= room
  {
    PowEight();
    EncodeAt(counter, COUNTER_BYTES, 0);
    DecodeEncode(counter, COUNTER_BYTES);
    if packet == Packet(e, key, counter, plain) {
      assert packet[..COUNTER_BYTES] == Encode(counter, COUNTER_BYTES);
      assert packet[COUNTER_BYTES..] == e.encrypt(key, Nonce(counter), plain);
    }
    if |packet| >= PACKET_OVERHEAD {
      EncodeDecode(packet[..COUNTER_BYTES]);
      assert packet == packet[..COUNTER_BYTES] + packet[COUNTER_BYTES..];
    }
  }

  /** A nonce is the counter's eight bytes, the least significant first, and four zero bytes. */
  lemma NonceBytes(counter: U64)
    ensures |Nonce(counter)| == 12
    ensures forall i: nat | i < 8 :: Nonce(counter)[i] == counter / Pow256(i) % 256
    ensures forall i | 8 <= i < 12 :: Nonce(counter)[i] == 0
  {
    EncodeAt(counter, COUNTER_BYTES, 0);
    forall i: nat | i < 8 ensures Nonce(counter)[i] == counter / Pow256(i) % 256 {
      EncodeAt(counter, COUNTER_BYTES, i);
    }
  }

  lemma NonceInjective(c: U64, d: U64)
    requires Nonce(c) == Nonce(d)
    ensures c == d
  {
    PowEight();
    EncodeAt(c, COUNTER_BYTES, 0);
    EncodeAt(d, COUNTER_BYTES, 0);
    assert Nonce(c)[..COUNTER_BYTES] == Encode(c, COUNTER_BYTES);
    assert Nonce(d)[..COUNTER_BYTES] == Encode(d, COUNTER_BYTES);
    DecodeEncode(c, COUNTER_BYTES);
    DecodeEncode(d, COUNTER_BYTES);
  }

  /** A datagram as session.c builds it. */
  function Frame(e: Cipher, kind: Byte, key: Bytes, counter: U64, plain: Bytes): Bytes {
    [kind] + Packet(e, key, counter, plain)
  }

  /** A datagram is 25 bytes longer than its payload, 57 bytes for a handshake message, and under
      one key it determines its kind, its counter and its payload. */
  lemma FrameUnambiguous(e: Cipher, key: Bytes, k1: Byte, c1: U64, p1: Bytes, k2: Byte, c2: U64, p2: Bytes)
    requires Sound(e)
    ensures |Frame(e, k1, key, c1, p1)| == |p1| + 25
    ensures |p1| == PUBLIC_KEY_BYTES ==> |Frame(e, k1, key, c1, p1)| == 57
    ensures Frame(e, k1, key, c1, p1) == Frame(e, k2, key, c2, p2) ==> k1 == k2 && c1 == c2 && p1 == p2
  {
    EncodeAt(c1, COUNTER_BYTES, 0);
    if Frame(e, k1, key, c1, p1) == Frame(e, k2, key, c2, p2) {
      assert Frame(e, k1, key, c1, p1)[1..] == Packet(e, key, c1, p1);
      assert Frame(e, k2, key, c2, p2)[1..] == Packet(e, key, c2, p2);
      OpensExactlyWhatWasSealed(e, key, Packet(e, key, c1, p1), |p1| + |p2|, c1, p1);
      OpensExactlyWhatWasSealed(e, key, Packet(e, key, c1, p1), |p1| + |p2|, c2, p2);
    }
  }

  /** Where everything stands in a datagram: the kind, the counter's eight bytes, and the ciphertext with its tag. */
  lemma FrameLayout(e: Cipher, kind: Byte, key: Bytes, counter: U64, plain: Bytes)
    ensures var f := Frame(e, kind, key, counter, plain);
            && |f| >= 9 && f[0] == kind && f[9..] == e.encrypt(key, Nonce(counter), plain)
            && forall i: nat | i < 8 :: f[1 + i] == counter / Pow256(i) % 256
  {
    var f := Frame(e, kind, key, counter, plain);
    EncodeAt(counter, COUNTER_BYTES, 0);
    forall i: nat | i < 8 ensures f[1 + i] == counter / Pow256(i) % 256 {
      EncodeAt(counter, COUNTER_BYTES, i);
    }
  }
}
