/**
 What a byte string off the network stands for, under a set of known keys, and the session state machine
 over bytes: it does what the one over symbolic datagrams does with their meanings.
 */
module WireMeaning {
  import opened Words
  import opened Terms
  import opened Sessions
  import Replay
  import Wire

  /** The session keys and public keys in use, and how keys are spelled in bytes. Many strings may spell a public
      key that the exchange refuses. */
  datatype Codebook = Codebook(cipher: Wire.Cipher, known: set<SessionKey>, pks: set<PublicKey>,
                               keyBytes: SessionKey -> Wire.Bytes,
                               pkBytes: PublicKey -> Wire.Bytes, pkOf: Wire.Bytes -> PublicKey)

  /** The bytes of a known public key spell nothing else, and no ciphertext opens under two known keys. */
  ghost predicate Faithful(r: Codebook) {
    && Wire.Sound(r.cipher)
    && (forall pk | pk in r.pks :: |r.pkBytes(pk)| == Wire.PUBLIC_KEY_BYTES && r.pkOf(r.pkBytes(pk)) == pk)
    && forall k, l, n: Wire.Bytes, p: Wire.Bytes, q: Wire.Bytes | k in r.known && l in r.known ::
         r.cipher.encrypt(r.keyBytes(k), n, p) == r.cipher.encrypt(r.keyBytes(l), n, q) ==> k == l
  }

  /** A stand-in for the tag: it depends on the key only. */
  function TagOf(key: Wire.Bytes): Wire.Bytes {
    if |key| == Wire.TAG_BYTES then key else seq(Wire.TAG_BYTES, _ => 0)
  }

  /** A cipher with that tag, and no secrecy. */
  function PlainCipher(): Wire.Cipher {
    Wire.Cipher((k: Wire.Bytes, n: Wire.Bytes, p: Wire.Bytes) => p + TagOf(k),
                (k: Wire.Bytes, n: Wire.Bytes, c: Wire.Bytes) =>
                  if |c| >= Wire.TAG_BYTES && c[|c| - Wire.TAG_BYTES..] == TagOf(k)
                  then Some(c[..|c| - Wire.TAG_BYTES]) else None,
                (k: Wire.Bytes, n: Wire.Bytes, c: Wire.Bytes) =>
                  if |c| >= Wire.TAG_BYTES then c[Wire.TAG_BYTES..] else [])
  }

  lemma PlainCipherSound()
    ensures Wire.Sound(PlainCipher())
  {
    var e := PlainCipher();
    forall k: Wire.Bytes, n: Wire.Bytes, p: Wire.Bytes, c: Wire.Bytes
      ensures e.decrypt(k, n, c) == Some(p) <==> c == e.encrypt(k, n, p)
    {
      if c == p + TagOf(k) {
        assert c[|c| - Wire.TAG_BYTES..] == TagOf(k) && c[..|c| - Wire.TAG_BYTES] == p;
      }
      if e.decrypt(k, n, c) == Some(p) {
        assert c == c[..|c| - Wire.TAG_BYTES] + c[|c| - Wire.TAG_BYTES..];
      }
    }
  }

  function SpellHalf(key: SessionKey): Wire.Bytes {
    seq(Wire.TAG_BYTES, _ => if key.half == First then 1 else 0)
  }

  /** There are faithful spellings: here is one of both keys of an exchange and a public key. */
  lemma FaithfulExists(k: SessionKey, l: SessionKey, pk: PublicKey)
    requires k.half != l.half
    ensures exists r :: Faithful(r) && r.known == {k, l} && r.pks == {pk}
  {
    var r := Codebook(PlainCipher(), {k, l}, {pk}, SpellHalf, _ => seq(Wire.PUBLIC_KEY_BYTES, _ => 0), _ => pk);
    PlainCipherSound();
    forall x, y, n: Wire.Bytes, p: Wire.Bytes, q: Wire.Bytes | x in r.known && y in r.known
      ensures r.cipher.encrypt(r.keyBytes(x), n, p) == r.cipher.encrypt(r.keyBytes(y), n, q) ==> x == y
    {
      var c, d := p + TagOf(SpellHalf(x)), q + TagOf(SpellHalf(y));
      if c == d {
        assert c[|c| - 1] == SpellHalf(x)[Wire.TAG_BYTES - 1] && d[|d| - 1] == SpellHalf(y)[Wire.TAG_BYTES - 1];
      }
    }
    assert Faithful(r);
  }

  /** What the plaintext of a message of this kind stands for. */
  function PlainOf(r: Codebook, kind: Byte, p: Wire.Bytes): Plain {
    if kind != DATA && |p| == Wire.PUBLIC_KEY_BYTES then Key(r.pkOf(p)) else Packet(p)
  }

  function PlainBytes(r: Codebook, p: Plain): Wire.Bytes {
    match p
    case Key(pk) => r.pkBytes(pk)
    case Packet(bytes) => bytes
  }

  ghost predicate OpensUnder(r: Codebook, packet: Wire.Bytes, key: SessionKey) {
    key in r.known && Wire.OpenPacket(r.cipher, r.keyBytes(key), packet, |packet|).Some?
  }

  ghost function BoxOf(r: Codebook, kind: Byte, packet: Wire.Bytes, key: SessionKey): Body
    requires OpensUnder(r, packet, key)
  {
    var o := Wire.OpenPacket(r.cipher, r.keyBytes(key), packet, |packet|).value;
    Box(key, o.0, PlainOf(r, kind, o.1))
  }

  /** The datagram a byte string stands for. */
  ghost function Meaning(r: Codebook, bytes: Wire.Bytes): Datagram {
    if bytes == [] then Empty
    else if exists key :: OpensUnder(r, bytes[1..], key) then
      var key :| OpensUnder(r, bytes[1..], key);
      Datagram(bytes[0], BoxOf(r, bytes[0], bytes[1..], key))
    else Datagram(bytes[0], Noise)
  }

  /** crypto_open behind the checks of length and type byte. */
  function OpenBytes(r: Codebook, key: SessionKey, kind: Byte, bytes: Wire.Bytes, room: nat)
    : Option<(U64, Wire.Bytes)>
  {
    if |bytes| < 1 || bytes[0] != kind then None
    else Wire.OpenPacket(r.cipher, r.keyBytes(key), bytes[1..], room)
  }

  lemma RoomOnlyRefuses(r: Codebook, key: SessionKey, packet: Wire.Bytes, room: nat)
    requires Wire.Sound(r.cipher)
    ensures var o := Wire.OpenPacket(r.cipher, r.keyBytes(key), packet, |packet|);
            && (o.Some? ==> |packet| == |o.value.1| + Wire.PACKET_OVERHEAD)
            && Wire.OpenPacket(r.cipher, r.keyBytes(key), packet, room) ==
                 if o.Some? && |o.value.1| <= room then o else None
  {
    var o := Wire.OpenPacket(r.cipher, r.keyBytes(key), packet, |packet|);
    if o.Some? {
      Wire.OpensExactlyWhatWasSealed(r.cipher, r.keyBytes(key), packet, |packet|, o.value.0, o.value.1);
      Wire.EncodeAt(o.value.0, Wire.COUNTER_BYTES, 0);
    }
  }

  lemma OneKeyOpens(r: Codebook, packet: Wire.Bytes, k: SessionKey, l: SessionKey)
    requires Faithful(r) && OpensUnder(r, packet, k) && OpensUnder(r, packet, l)
    ensures k == l
  {
    var o := Wire.OpenPacket(r.cipher, r.keyBytes(k), packet, |packet|).value;
    var q := Wire.OpenPacket(r.cipher, r.keyBytes(l), packet, |packet|).value;
    var n := Wire.Nonce(o.0);
    assert packet[Wire.COUNTER_BYTES..] == r.cipher.encrypt(r.keyBytes(k), n, o.1);
    assert packet[Wire.COUNTER_BYTES..] == r.cipher.encrypt(r.keyBytes(l), n, q.1);
  }

  lemma MeaningOpens(r: Codebook, bytes: Wire.Bytes, key: SessionKey)
    requires Faithful(r) && bytes != []
    ensures OpensUnder(r, bytes[1..], key) ==>
        Meaning(r, bytes) == Datagram(bytes[0], BoxOf(r, bytes[0], bytes[1..], key))
    ensures !OpensUnder(r, bytes[1..], key) ==> !SealedUnder(Meaning(r, bytes), key)
  {
    forall k | OpensUnder(r, bytes[1..], k) && OpensUnder(r, bytes[1..], key) ensures k == key {
      OneKeyOpens(r, bytes[1..], k, key);
    }
  }

  /** Opening bytes under a known key and reading the result is opening their meaning: whatever the bytes. */
  lemma OpeningCommutes(r: Codebook, key: SessionKey, kind: Byte, bytes: Wire.Bytes, room: nat)
    requires Faithful(r) && key in r.known
    ensures Open(key, kind, Meaning(r, bytes), room) ==
              match OpenBytes(r, key, kind, bytes, room)
              case None => None
              case Some((counter, p)) => Some(Opened(counter, PlainOf(r, kind, p)))
  {
    if bytes != [] {
      RoomOnlyRefuses(r, key, bytes[1..], room);
      MeaningOpens(r, bytes, key);
    }
  }

  /** What is sealed under a known key means what was sealed. */
  lemma SealingCommutes(r: Codebook, kind: Byte, key: SessionKey, counter: U64, plain: Plain)
    requires Faithful(r) && key in r.known && (kind == DATA <==> plain.Packet?) && (plain.Key? ==> plain.pk in r.pks)
    ensures Meaning(r, Wire.Frame(r.cipher, kind, r.keyBytes(key), counter, PlainBytes(r, plain))) ==
              Datagram(kind, Box(key, counter, plain))
  {
    var p := PlainBytes(r, plain);
    var frame := Wire.Frame(r.cipher, kind, r.keyBytes(key), counter, p);
    var packet := Wire.Packet(r.cipher, r.keyBytes(key), counter, p);
    assert frame[1..] == packet;
    Wire.FrameUnambiguous(r.cipher, r.keyBytes(key), kind, counter, p, kind, counter, p);
    Wire.OpensExactlyWhatWasSealed(r.cipher, r.keyBytes(key), packet, |packet|, counter, p);
    MeaningOpens(r, frame, key);
  }

  // ---------------------------------------------------------------- session.c over bytes

  datatype ByteReply = Failed | Finished | Emits(bytes: Wire.Bytes) | HandsUp(payload: seq<Byte>)

  datatype ByteOutcome = ByteOutcome(s: Session, reply: ByteReply)

  function FrameOf(r: Codebook, kind: Byte, key: SessionKey, counter: U64, plain: Wire.Bytes): Wire.Bytes {
    Wire.Frame(r.cipher, kind, r.keyBytes(key), counter, plain)
  }

  /** session_build_init. */
  ghost function BuildInitBytes(r: Codebook, s: Session, outLen: nat): ByteOutcome {
    if s.role != Initiator || s.phase != Pending || outLen < HANDSHAKE_MSG_LEN then ByteOutcome(s, Failed)
    else
      var out := FrameOf(r, HANDSHAKE_INIT, s.staticKeys.tx, s.handshakeCounter, r.pkBytes(s.ephPk));
      var t := s.(pendingCounter := s.handshakeCounter, handshakeCounter := Inc64(s.handshakeCounter));
      ByteOutcome(LogSealed(t, Meaning(r, out)), Emits(out))
  }

  /** session_handle_init. */
  ghost function HandleInitBytes(r: Codebook, s: Session, bytes: Wire.Bytes, outLen: nat): ByteOutcome {
    if s.role != Responder || outLen < HANDSHAKE_MSG_LEN then ByteOutcome(s, Failed)
    else match OpenBytes(r, s.staticKeys.rx, HANDSHAKE_INIT, bytes, Wire.PUBLIC_KEY_BYTES)
      case None => ByteOutcome(s, Failed)
      case Some((counter, p)) =>
        if |p| != Wire.PUBLIC_KEY_BYTES || (s.haveSeen && counter <= s.highestSeen) then ByteOutcome(s, Failed)
        else
          var s1 := if s.phase == Established then Start(s) else s;
          match Derive(Responder, s1.ephPk, s1.ephSk, r.pkOf(p))
          case None => ByteOutcome(s1, Failed)
          case Some(keys) =>
            var out := FrameOf(r, HANDSHAKE_RESPONSE, s.staticKeys.tx, counter, r.pkBytes(s1.ephPk));
            var t := Establish(s1, keys).(haveSeen := true, highestSeen := counter);
            ByteOutcome(LogSealed(t, Meaning(r, out)), Emits(out))
  }

  /** session_handle_response. */
  function HandleResponseBytes(r: Codebook, s: Session, bytes: Wire.Bytes): ByteOutcome {
    if s.role != Initiator || s.phase != Pending then ByteOutcome(s, Failed)
    else match OpenBytes(r, s.staticKeys.rx, HANDSHAKE_RESPONSE, bytes, Wire.PUBLIC_KEY_BYTES)
      case None => ByteOutcome(s, Failed)
      case Some((counter, p)) =>
        if |p| != Wire.PUBLIC_KEY_BYTES || counter != s.pendingCounter then ByteOutcome(s, Failed)
        else match Derive(Initiator, s.ephPk, s.ephSk, r.pkOf(p))
          case None => ByteOutcome(s, Failed)
          case Some(keys) => ByteOutcome(Establish(s, keys), Finished)
  }

  /** session_seal_data. */
  ghost function SealDataBytes(r: Codebook, s: Session, payload: seq<Byte>, outLen: nat): ByteOutcome {
    if s.phase != Established || outLen < |payload| + DATA_OVERHEAD then ByteOutcome(s, Failed)
    else
      var out := FrameOf(r, DATA, s.dataKeys.tx, s.txCounter, payload);
      ByteOutcome(LogSealed(s.(txCounter := Inc64(s.txCounter)), Meaning(r, out)), Emits(out))
  }

  /** session_open_data. */
  ghost function OpenDataBytes(r: Codebook, s: Session, bytes: Wire.Bytes, outLen: nat): ByteOutcome {
    if s.phase != Established then ByteOutcome(s, Failed)
    else match OpenBytes(r, s.dataKeys.rx, DATA, bytes, outLen)
      case None => ByteOutcome(s, Failed)
      case Some((counter, p)) =>
        if !Replay.Fresh(s.accepted, counter) then ByteOutcome(s, Failed)
        else ByteOutcome(LogDelivered(s.(accepted := s.accepted + {counter}), Meaning(r, bytes)), HandsUp(p))
  }

  lemma FrameLength(r: Codebook, kind: Byte, key: SessionKey, counter: U64, plain: Wire.Bytes)
    requires Wire.Sound(r.cipher)
    ensures |FrameOf(r, kind, key, counter, plain)| == |plain| + 25 && FrameOf(r, kind, key, counter, plain)[0] == kind
  {
    Wire.FrameUnambiguous(r.cipher, r.keyBytes(key), kind, counter, plain, kind, counter, plain);
  }

  datatype ByteCall =
    | StartBytes
    | BuildInitFor(outLen: nat)
    | HandleInitOf(bytes: Wire.Bytes, outLen: nat)
    | HandleResponseOf(bytes: Wire.Bytes)
    | SealDataFor(payload: seq<Byte>, outLen: nat)
    | OpenDataOf(bytes: Wire.Bytes, outLen: nat)

  ghost function DoBytes(r: Codebook, s: Session, c: ByteCall): ByteOutcome {
    match c
    case StartBytes => ByteOutcome(Start(s), Finished)
    case BuildInitFor(outLen) => BuildInitBytes(r, s, outLen)
    case HandleInitOf(bytes, outLen) => HandleInitBytes(r, s, bytes, outLen)
    case HandleResponseOf(bytes) => HandleResponseBytes(r, s, bytes)
    case SealDataFor(payload, outLen) => SealDataBytes(r, s, payload, outLen)
    case OpenDataOf(bytes, outLen) => OpenDataBytes(r, s, bytes, outLen)
  }

  /** The call on meanings. */
  ghost function Meant(r: Codebook, c: ByteCall): Call {
    match c
    case StartBytes => StartCall
    case BuildInitFor(outLen) => BuildInitCall(outLen)
    case HandleInitOf(bytes, outLen) => HandleInitCall(Meaning(r, bytes), outLen)
    case HandleResponseOf(bytes) => HandleResponseCall(Meaning(r, bytes))
    case SealDataFor(payload, outLen) => SealDataCall(payload, outLen)
    case OpenDataOf(bytes, outLen) => OpenDataCall(Meaning(r, bytes), outLen)
  }

  ghost function ReplyMeans(r: Codebook, reply: ByteReply): Reply {
    match reply
    case Failed => Refused
    case Finished => Done
    case Emits(bytes) => Sent(Meaning(r, bytes))
    case HandsUp(payload) => Received(payload)
  }

  /** The keys the session works with are known, and so is the ephemeral key it would draw next. */
  ghost predicate KeysKnown(r: Codebook, s: Session) {
    && s.staticKeys.tx in r.known && s.staticKeys.rx in r.known
    && s.ephPk in r.pks && PublicOf(Ephemeral(s.owner, s.drawn)) in r.pks
    && (s.phase == Established ==> s.dataKeys.tx in r.known && s.dataKeys.rx in r.known)
  }

  /** A call on bytes does to the session what the call on their meaning does, and what it emits means its reply. */
  ghost predicate Commutes(r: Codebook, s: Session, c: ByteCall) {
    var o := DoBytes(r, s, c);
    Do(s, Meant(r, c)) == Outcome(o.s, ReplyMeans(r, o.reply))
  }

  lemma BuildInitCommutes(r: Codebook, s: Session, outLen: nat)
    requires Faithful(r) && KeysKnown(r, s)
    ensures Commutes(r, s, BuildInitFor(outLen))
  {
    SealingCommutes(r, HANDSHAKE_INIT, s.staticKeys.tx, s.handshakeCounter, Key(s.ephPk));
  }

  lemma HandleInitCommutes(r: Codebook, s: Session, bytes: Wire.Bytes, outLen: nat)
    requires Faithful(r) && KeysKnown(r, s)
    ensures Commutes(r, s, HandleInitOf(bytes, outLen))
  {
    OpeningCommutes(r, s.staticKeys.rx, HANDSHAKE_INIT, bytes, 32);
    var s1 := if s.phase == Established then Start(s) else s;
    var o := OpenBytes(r, s.staticKeys.rx, HANDSHAKE_INIT, bytes, 32);
    if o.Some? {
      SealingCommutes(r, HANDSHAKE_RESPONSE, s.staticKeys.tx, o.value.0, Key(s1.ephPk));
    }
  }

  lemma HandleResponseCommutes(r: Codebook, s: Session, bytes: Wire.Bytes)
    requires Faithful(r) && KeysKnown(r, s)
    ensures Commutes(r, s, HandleResponseOf(bytes))
  {
    OpeningCommutes(r, s.staticKeys.rx, HANDSHAKE_RESPONSE, bytes, 32);
  }

  lemma SealDataCommutes(r: Codebook, s: Session, payload: seq<Byte>, outLen: nat)
    requires Faithful(r) && KeysKnown(r, s)
    ensures Commutes(r, s, SealDataFor(payload, outLen))
  {
    if s.phase == Established {
      SealingCommutes(r, DATA, s.dataKeys.tx, s.txCounter, Packet(payload));
    }
  }

  lemma OpenDataCommutes(r: Codebook, s: Session, bytes: Wire.Bytes, outLen: nat)
    requires Faithful(r) && KeysKnown(r, s)
    ensures Commutes(r, s, OpenDataOf(bytes, outLen))
  {
    if s.phase == Established {
      OpeningCommutes(r, s.dataKeys.rx, DATA, bytes, outLen);
    }
  }

  lemma CallCommutes(r: Codebook, s: Session, c: ByteCall)
    requires Faithful(r) && KeysKnown(r, s)
    ensures Commutes(r, s, c)
  {
    match c
    case StartBytes =>
    case BuildInitFor(outLen) => BuildInitCommutes(r, s, outLen);
    case HandleInitOf(bytes, outLen) => HandleInitCommutes(r, s, bytes, outLen);
    case HandleResponseOf(bytes) => HandleResponseCommutes(r, s, bytes);
    case SealDataFor(payload, outLen) => SealDataCommutes(r, s, payload, outLen);
    case OpenDataOf(bytes, outLen) => OpenDataCommutes(r, s, bytes, outLen);
  }

  /** What is emitted, and when: an INIT or an answer of 57 bytes and kind 1 or 2, data of kind 3 and 25 bytes more than
      its payload, always within the room given; and what is handed up fits its buffer. */
  lemma EmittedBytes(r: Codebook, s: Session, c: ByteCall)
    requires Faithful(r) && KeysKnown(r, s)
    ensures var reply := DoBytes(r, s, c).reply;
            && (c.BuildInitFor? ==>
                  && (reply.Emits? <==> s.role == Initiator && s.phase == Pending && c.outLen >= 57)
                  && (reply.Emits? ==> |reply.bytes| == 57 && reply.bytes[0] == 1))
            && (c.HandleInitOf? && reply.Emits? ==> |reply.bytes| == 57 <= c.outLen && reply.bytes[0] == 2)
            && (c.SealDataFor? ==>
                  && (reply.Emits? <==> s.phase == Established && c.outLen >= |c.payload| + 25)
                  && (reply.Emits? ==> |reply.bytes| == |c.payload| + 25 && reply.bytes[0] == 3))
            && (c.OpenDataOf? && reply.HandsUp? ==> |reply.payload| <= c.outLen && |c.bytes| == |reply.payload| + 25)
  {
    match c
    case StartBytes =>
    case HandleResponseOf(_) =>
    case BuildInitFor(_) => FrameLength(r, HANDSHAKE_INIT, s.staticKeys.tx, s.handshakeCounter, r.pkBytes(s.ephPk));
    case HandleInitOf(bytes, _) =>
      var o := OpenBytes(r, s.staticKeys.rx, HANDSHAKE_INIT, bytes, 32);
      var next := PublicOf(Ephemeral(s.owner, s.drawn));
      if o.Some? {
        FrameLength(r, HANDSHAKE_RESPONSE, s.staticKeys.tx, o.value.0, r.pkBytes(s.ephPk));
        FrameLength(r, HANDSHAKE_RESPONSE, s.staticKeys.tx, o.value.0, r.pkBytes(next));
      }
    case SealDataFor(payload, _) => FrameLength(r, DATA, s.dataKeys.tx, s.txCounter, payload);
    case OpenDataOf(bytes, outLen) =>
      if bytes != [] {
        RoomOnlyRefuses(r, s.dataKeys.rx, bytes[1..], outLen);
      }
  }

  // ---------------------------------------------------------------- every run over bytes

  ghost function RunBytes(r: Codebook, s: Session, calls: seq<ByteCall>): Session {
    if calls == [] then s else DoBytes(r, RunBytes(r, s, calls[..|calls| - 1]), calls[|calls| - 1]).s
  }

  ghost function MeantAll(r: Codebook, calls: seq<ByteCall>): seq<Call> {
    if calls == [] then [] else MeantAll(r, calls[..|calls| - 1]) + [Meant(r, calls[|calls| - 1])]
  }

  /** Every key the session comes to work with in this run is known. */
  ghost predicate KnownThroughout(r: Codebook, s: Session, calls: seq<ByteCall>) {
    KeysKnown(r, RunBytes(r, s, calls)) && (calls != [] ==> KnownThroughout(r, s, calls[..|calls| - 1]))
  }

  /** Whatever byte strings a session is fed, it goes through the states that the symbolic session goes
      through on their meanings. */
  lemma {:induction false} RunCommutes(r: Codebook, s: Session, calls: seq<ByteCall>)
    requires Faithful(r) && KnownThroughout(r, s, calls)
    ensures |MeantAll(r, calls)| == |calls| && RunBytes(r, s, calls) == Run(s, MeantAll(r, calls))
  {
    if calls == [] {
    } else {
      var before, c := calls[..|calls| - 1], calls[|calls| - 1];
      RunCommutes(r, s, before);
      CallCommutes(r, RunBytes(r, s, before), c);
      assert MeantAll(r, calls)[..|before|] == MeantAll(r, before);
    }
  }
}
