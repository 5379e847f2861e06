/**
 Symbolic cryptography: X25519 secrets and public keys, the rx/tx keys that libsodium's
 crypto_kx derives from an exchange, and sealed boxes that open only under their own key.
 */
module Terms {
  import opened Words

  /** X25519 secrets. A generated secret is named by the session that drew it and by how many it
      had drawn before, so no two draws coincide. `Zeroed` is what crypto_wipe leaves behind. */
  datatype Secret = Zeroed | Static(node: nat) | Ephemeral(owner: nat, draw: nat)

  /** `SmallOrder` stands for the encodings that libsodium's key exchange refuses. */
  datatype PublicKey = PublicOf(secret: Secret) | SmallOrder

  datatype Role = Initiator | Responder

  datatype Half = First | Second

  /** One half of the hash over the shared secret, the client's and the server's public key. */
  datatype SessionKey = SessionKey(shared: set<Secret>, client: PublicKey, server: PublicKey, half: Half)

  datatype KeyPair = KeyPair(rx: SessionKey, tx: SessionKey)

  /** crypto_derive_session_keys: the client reads with the first half and writes with the second,
      the server the other way round. */
  function Derive(role: Role, localPk: PublicKey, localSk: Secret, remotePk: PublicKey): Option<KeyPair> {
    if remotePk.SmallOrder? then None
    else
      var shared := {localSk, remotePk.secret};
      match role
      case Initiator => Some(KeyPair(SessionKey(shared, localPk, remotePk, First),
                                     SessionKey(shared, localPk, remotePk, Second)))
      case Responder => Some(KeyPair(SessionKey(shared, remotePk, localPk, Second),
                                     SessionKey(shared, remotePk, localPk, First)))
  }

  ghost predicate Mirrored(a: KeyPair, b: KeyPair) {
    a.tx == b.rx && a.rx == b.tx
  }

  /** Both ends of an exchange arrive at the same two keys, with the directions swapped. */
  lemma DeriveMirrors(a: Secret, b: Secret)
    ensures var i := Derive(Initiator, PublicOf(a), a, PublicOf(b));
            var r := Derive(Responder, PublicOf(b), b, PublicOf(a));
            i.Some? && r.Some? && Mirrored(i.value, r.value)
  {
    assert {a, b} == {b, a};
  }

  // ---------------------------------------------------------------- datagrams

  const HANDSHAKE_INIT: Byte := 1
  const HANDSHAKE_RESPONSE: Byte := 2
  const DATA: Byte := 3

  datatype Plain = Key(pk: PublicKey) | Packet(bytes: seq<Byte>)

  /** `Noise` is any byte string that no key opens: truncated, altered or made up. */
  datatype Body = Box(key: SessionKey, counter: U64, plain: Plain) | Noise

  datatype Datagram = Empty | Datagram(kind: Byte, body: Body)

  /** Plaintext bytes inside a box. */
  function PlainLength(p: Plain): nat {
    match p
    case Key(_) => 32
    case Packet(bytes) => |bytes|
  }

  datatype Opened = Opened(counter: U64, plain: Plain)

  /** crypto_open behind the type-byte check: succeeds exactly on a box of that kind sealed under
      `key` whose plaintext fits in `room` bytes. */
  function Open(key: SessionKey, kind: Byte, d: Datagram, room: nat): Option<Opened> {
    if d.Datagram? && d.kind == kind && d.body.Box? && d.body.key == key && PlainLength(d.body.plain) <= room
    then Some(Opened(d.body.counter, d.body.plain)) else None
  }

  predicate SealedUnder(d: Datagram, key: SessionKey) {
    d.Datagram? && d.body.Box? && d.body.key == key
  }

  /** Two datagrams sealed with one nonce under one key. */
  predicate SameNonce(d: Datagram, e: Datagram) {
    d.Datagram? && e.Datagram? && d.body.Box? && e.body.Box? && d.body.key == e.body.key
        && d.body.counter == e.body.counter
  }
}
