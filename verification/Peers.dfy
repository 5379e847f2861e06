/**
 One configured peer of the running daemon: its session, its endpoint and the three timestamps that
 drive keepalives, reconnection and key rotation.
 */
module Peers {
  import opened Words
  import opened Terms
  import opened Sessions

  const KEEPALIVE_INTERVAL_MS: U64 := 5000
  const SESSION_TIMEOUT_MS: U64 := 15000
  const KEY_ROTATION_INTERVAL_MS: U64 := 45000

  datatype Endpoint = Endpoint(ip: nat, port: nat)

  /** peer_session_t without its statistics. */
  datatype Peer = Peer(session: Session, resolved: bool, addr: Endpoint, lastRx: U64, lastTx: U64, lastDone: U64)

  /** initiate_handshake; `lookup` is what DNS answers, should it be asked. */
  function Initiate(p: Peer, now: U64, lookup: Option<Endpoint>): Peer {
    if !p.resolved && lookup.None? then p.(lastRx := now)
    else
      var q := if p.resolved then p else p.(resolved := true, addr := lookup.value);
      q.(session := StartAndBuild(q.session), lastRx := now, lastTx := now)
  }

  /** The first half of a timer pass over a peer. */
  function Keepalive(p: Peer, now: U64): Peer {
    if p.resolved && p.session.phase == Established && Sub64(now, p.lastTx) >= KEEPALIVE_INTERVAL_MS
    then p.(session := SealData(p.session, [], SEALED_BUF_SIZE).s, lastTx := now)
    else p
  }

  predicate DeadPeer(p: Peer, now: U64) {
    p.session.role == Initiator && Sub64(now, p.lastRx) >= SESSION_TIMEOUT_MS
  }

  predicate KeysExpired(p: Peer, now: U64) {
    p.session.role == Initiator && p.session.phase == Established && Sub64(now, p.lastDone) >= KEY_ROTATION_INTERVAL_MS
  }

  /** A whole timer pass over a peer. */
  function Tick(p: Peer, now: U64, lookup: Option<Endpoint>): Peer {
    var q := Keepalive(p, now);
    if DeadPeer(q, now) || KeysExpired(q, now) then Initiate(q, now, lookup) else q
  }

  /** A packet from the TUN device, routed to this peer; `sent` is the outcome of the send. */
  function SendPacket(p: Peer, packet: seq<Byte>, now: U64, sent: bool): Peer {
    var o := SealData(p.session, packet, SEALED_BUF_SIZE);
    if o.reply.Sent? && sent then p.(session := o.s, lastTx := now) else p.(session := o.s)
  }

  /** A HANDSHAKE_INIT for this peer; the timestamps move only once the answer is on its way. */
  function AnswerInit(p: Peer, msg: Datagram, now: U64, sent: bool): Peer {
    var o := HandleInit(p.session, msg, HANDSHAKE_MSG_LEN);
    if o.reply.Sent? && sent then p.(session := o.s, lastRx := now, lastTx := now, lastDone := now)
        else p.(session := o.s)
  }

  function TakeResponse(p: Peer, msg: Datagram, now: U64): Peer {
    var o := HandleResponse(p.session, msg);
    if o.reply.Done? then p.(session := o.s, lastRx := now, lastDone := now) else p.(session := o.s)
  }

  /** A DATA message; an empty payload is a keepalive and is not written to the TUN device. */
  function TakeData(p: Peer, msg: Datagram, now: U64, written: bool): Peer {
    var o := OpenData(p.session, msg, MAX_PACKET_SIZE);
    if o.reply.Received? && (o.reply.payload == [] || written) then p.(session := o.s, lastRx := now)
    else p.(session := o.s)
  }

  // ---------------------------------------------------------------- timers

  /** No timestamp is ahead of the clock, and an established initiator knows where its peer is. */
  predicate TimersOk(p: Peer, now: U64) {
    && p.lastRx <= now && p.lastTx <= now && p.lastDone <= now
    && (p.session.role == Initiator && p.session.phase == Established ==> p.resolved)
  }

  /** What a timer pass leaves behind. */
  predicate Punctual(p: Peer, now: U64) {
    && (p.session.role == Initiator ==> now - p.lastRx < 15000)
    && (p.session.role == Initiator && p.session.phase == Established ==> now - p.lastDone < 45000)
    && (p.resolved && p.session.phase == Established ==> now - p.lastTx < 5000)
  }

  lemma TickIsPunctual(p: Peer, now: U64, lookup: Option<Endpoint>)
    requires TimersOk(p, now)
    ensures TimersOk(Tick(p, now, lookup), now) && Punctual(Tick(p, now, lookup), now)
    ensures Sub64(now, p.lastRx) == now - p.lastRx && Sub64(now, p.lastTx) == now - p.lastTx
    ensures Sub64(now, p.lastDone) == now - p.lastDone
  {
  }
}
