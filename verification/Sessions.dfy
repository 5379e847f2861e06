/**
 One end of a peer relationship: the handshake and data-channel state machine of session.c as
 functions on values, and what every sequence of calls keeps, whatever datagrams are fed to it.
 */
module Sessions {
  import opened Words
  import opened Terms
  import Replay

  const HANDSHAKE_MSG_LEN: nat := 57
  const DATA_OVERHEAD: nat := 25
  /** The daemon's packet buffers. */
  const MAX_PACKET_SIZE: nat := 2048
  const SEALED_BUF_SIZE: nat := 2073

  datatype Phase = Pending | Established

  /** One completed handshake, at this end. */
  datatype Epoch = Epoch(eph: PublicKey, keys: KeyPair)

  /** What the session has done so far: every box it sealed, every data message it handed up and
      every key set it established, in order. */
  datatype History = History(sealed: seq<Datagram>, delivered: seq<Datagram>, epochs: seq<Epoch>)

  /** session_t. `accepted` is the content of the replay window (module Replay); `owner` and `drawn`
      name the ephemeral secrets this session draws. */
  datatype Session = Session(
    role: Role, owner: nat, phase: Phase,
    staticKeys: KeyPair, ephPk: PublicKey, ephSk: Secret, drawn: nat,
    handshakeCounter: U64, pendingCounter: U64, haveSeen: bool, highestSeen: U64,
    dataKeys: KeyPair, txCounter: U64, accepted: set<U64>, hist: History)

  datatype Reply = Refused | Done | Sent(msg: Datagram) | Received(payload: seq<Byte>)

  datatype Outcome = Outcome(s: Session, reply: Reply)

  // ---------------------------------------------------------------- session.c on values

  const NO_KEY := SessionKey({}, SmallOrder, SmallOrder, First)
  const NO_KEYS := KeyPair(NO_KEY, NO_KEY)

  /** The record as the memset of session_init leaves it. */
  function Blank(role: Role, owner: nat): Session {
    Session(role, owner, Pending, NO_KEYS, SmallOrder, Zeroed, 0, 0, 0, false, 0, NO_KEYS, 0, {}, History([], [], []))
  }

  /** session_init: fails exactly when the peer's public key does. */
  function Init(role: Role, owner: nat, node: nat, peer: PublicKey, wallClock: U64): Option<Session> {
    match Derive(role, PublicOf(Static(node)), Static(node), peer)
    case None => None
    case Some(keys) =>
      Some(Start(Blank(role, owner).(staticKeys := keys, handshakeCounter := wallClock)))
  }

  /** session_start_handshake. */
  function Start(s: Session): Session {
    var sk := Ephemeral(s.owner, s.drawn);
    s.(ephPk := PublicOf(sk), ephSk := sk, drawn := s.drawn + 1, phase := Pending, txCounter := 0, accepted := {})
  }

  function LogSealed(s: Session, d: Datagram): Session {
    s.(hist := s.hist.(sealed := s.hist.sealed + [d]))
  }

  function LogDelivered(s: Session, d: Datagram): Session {
    s.(hist := s.hist.(delivered := s.hist.delivered + [d]))
  }

  /** Adopt the keys derived from the ephemeral exchange and wipe the ephemeral secret. */
  function Establish(s: Session, keys: KeyPair): Session {
    s.(dataKeys := keys, ephSk := Zeroed, phase := Established,
       hist := s.hist.(epochs := s.hist.epochs + [Epoch(s.ephPk, keys)]))
  }

  /** session_build_init. */
  function BuildInit(s: Session, outLen: nat): Outcome {
    if s.role != Initiator || s.phase != Pending || outLen < HANDSHAKE_MSG_LEN then Outcome(s, Refused)
    else
      var msg := Datagram(HANDSHAKE_INIT, Box(s.staticKeys.tx, s.handshakeCounter, Key(s.ephPk)));
      Outcome(LogSealed(s.(pendingCounter := s.handshakeCounter, handshakeCounter := Inc64(s.handshakeCounter)), msg),
              Sent(msg))
  }

  /** The checks of session_handle_init before it touches the session: form, authenticity, freshness. */
  predicate InitAccepted(s: Session, d: Datagram, outLen: nat) {
    && s.role == Responder && outLen >= HANDSHAKE_MSG_LEN
    && var o := Open(s.staticKeys.rx, HANDSHAKE_INIT, d, 32);
    && o.Some? && o.value.plain.Key?
    && !(s.haveSeen && o.value.counter <= s.highestSeen)
  }

  /** session_handle_init. An established session is restarted before the peer's ephemeral key is
      tried, so a key that fails the exchange leaves it restarted. */
  function HandleInit(s: Session, d: Datagram, outLen: nat): Outcome {
    if !InitAccepted(s, d, outLen) then Outcome(s, Refused)
    else
      var s1 := if s.phase == Established then Start(s) else s;
      match Derive(Responder, s1.ephPk, s1.ephSk, d.body.plain.pk)
      case None => Outcome(s1, Refused)
      case Some(keys) =>
        var msg := Datagram(HANDSHAKE_RESPONSE, Box(s.staticKeys.tx, d.body.counter, Key(s1.ephPk)));
        Outcome(LogSealed(Establish(s1, keys).(haveSeen := true, highestSeen := d.body.counter), msg), Sent(msg))
  }

  /** session_handle_response. */
  function HandleResponse(s: Session, d: Datagram): Outcome {
    var o := Open(s.staticKeys.rx, HANDSHAKE_RESPONSE, d, 32);
    if s.role != Initiator || s.phase != Pending || o.None? || !o.value.plain.Key?
        || o.value.counter != s.pendingCounter
    then Outcome(s, Refused)
    else match Derive(Initiator, s.ephPk, s.ephSk, o.value.plain.pk)
      case None => Outcome(s, Refused)
      case Some(keys) => Outcome(Establish(s, keys), Done)
  }

  /** session_seal_data. */
  function SealData(s: Session, payload: seq<Byte>, outLen: nat): Outcome {
    if s.phase != Established || outLen < |payload| + DATA_OVERHEAD then Outcome(s, Refused)
    else
      var msg := Datagram(DATA, Box(s.dataKeys.tx, s.txCounter, Packet(payload)));
      Outcome(LogSealed(s.(txCounter := Inc64(s.txCounter)), msg), Sent(msg))
  }

  /** session_open_data. */
  function OpenData(s: Session, d: Datagram, outLen: nat): Outcome {
    var o := Open(s.dataKeys.rx, DATA, d, outLen);
    if s.phase != Established || o.None? || !o.value.plain.Packet? || !Replay.Fresh(s.accepted, o.value.counter)
    then Outcome(s, Refused)
    else Outcome(LogDelivered(s.(accepted := s.accepted + {o.value.counter}), d), Received(o.value.plain.bytes))
  }

  /** The plaintext that session_open_data has put in the caller's buffer when it comes to the replay check. */
  function Decrypted(s: Session, d: Datagram, outLen: nat): Option<seq<Byte>> {
    var o := Open(s.dataKeys.rx, DATA, d, outLen);
    if s.phase == Established && o.Some? && o.value.plain.Packet? then Some(o.value.plain.bytes) else None
  }

  /** A handshake attempt as the daemon makes it: session_start_handshake, then session_build_init. */
  function StartAndBuild(s: Session): Session {
    BuildInit(Start(s), SEALED_BUF_SIZE).s
  }

  datatype Call =
    | StartCall
    | BuildInitCall(outLen: nat)
    | HandleInitCall(msg: Datagram, outLen: nat)
    | HandleResponseCall(msg: Datagram)
    | SealDataCall(payload: seq<Byte>, outLen: nat)
    | OpenDataCall(msg: Datagram, outLen: nat)

  function Do(s: Session, c: Call): Outcome {
    match c
    case StartCall => Outcome(Start(s), Done)
    case BuildInitCall(outLen) => BuildInit(s, outLen)
    case HandleInitCall(msg, outLen) => HandleInit(s, msg, outLen)
    case HandleResponseCall(msg) => HandleResponse(s, msg)
    case SealDataCall(payload, outLen) => SealData(s, payload, outLen)
    case OpenDataCall(msg, outLen) => OpenData(s, msg, outLen)
  }

  // ---------------------------------------------------------------- the invariant of one session

  function TxHalf(role: Role): Half {
    if role == Initiator then Second else First
  }

  function RxHalf(role: Role): Half {
    if role == Initiator then First else Second
  }

  /** The public key a session of this role contributed to `key`. */
  function OwnPk(role: Role, key: SessionKey): PublicKey {
    if role == Initiator then key.client else key.server
  }

  /** `key` comes out of an exchange that used one of this session's own ephemeral secrets. */
  predicate OwnDataKey(s: Session, key: SessionKey) {
    var pk := OwnPk(s.role, key);
    && pk.PublicOf? && pk.secret.Ephemeral? && pk.secret.owner == s.owner && pk.secret.draw < s.drawn
    && pk.secret in key.shared
  }

  predicate StaticKeysOk(s: Session) {
    && s.staticKeys.tx.half == TxHalf(s.role)
    && s.staticKeys.rx.half == RxHalf(s.role)
    && OwnPk(s.role, s.staticKeys.tx).PublicOf? && OwnPk(s.role, s.staticKeys.tx).secret.Static?
  }

  /** Pending: nothing sent, nothing received, and a live ephemeral secret matching the public key.
      Established: that secret is gone, and the data keys were derived with it. */
  predicate PhaseOk(s: Session) {
    && s.drawn > 0
    && s.ephPk == PublicOf(Ephemeral(s.owner, s.drawn - 1))
    && match s.phase
       case Pending => s.txCounter == 0 && s.accepted == {} && s.ephSk == Ephemeral(s.owner, s.drawn - 1)
       case Established =>
         && s.ephSk == Zeroed
         && s.dataKeys.tx.half == TxHalf(s.role) && s.dataKeys.rx.half == RxHalf(s.role)
         && OwnPk(s.role, s.dataKeys.tx) == OwnPk(s.role, s.dataKeys.rx) == s.ephPk
         && s.ephPk.secret in s.dataKeys.tx.shared && s.ephPk.secret in s.dataKeys.rx.shared
  }

  predicate SealedOk(s: Session, d: Datagram) {
    && d.Datagram? && d.body.Box? && d.body.key.half == TxHalf(s.role)
    && if d.body.key == s.staticKeys.tx then
         && d.body.plain.Key? && d.body.plain.pk.PublicOf? && d.body.plain.pk.secret.Ephemeral?
         && d.body.plain.pk.secret.owner == s.owner
         && (if s.role == Initiator then d.kind == HANDSHAKE_INIT && d.body.counter < s.handshakeCounter
             else d.kind == HANDSHAKE_RESPONSE && s.haveSeen && d.body.counter <= s.highestSeen)
       else
         && d.kind == DATA && d.body.plain.Packet? && OwnDataKey(s, d.body.key)
         && (OwnPk(s.role, d.body.key) == s.ephPk ==>
               s.phase == Established && d.body.key == s.dataKeys.tx && d.body.counter < s.txCounter)
  }

  predicate DeliveredOk(s: Session, d: Datagram) {
    && d.Datagram? && d.kind == DATA && d.body.Box? && d.body.plain.Packet?
    && d.body.key.half == RxHalf(s.role) && OwnDataKey(s, d.body.key)
    && (OwnPk(s.role, d.body.key) == s.ephPk ==>
          s.phase == Established && d.body.key == s.dataKeys.rx && d.body.counter in s.accepted)
  }

  predicate EpochOk(s: Session, e: Epoch) {
    && e.eph.PublicOf? && e.eph.secret.Ephemeral? && e.eph.secret.owner == s.owner && e.eph.secret.draw < s.drawn
    && OwnPk(s.role, e.keys.tx) == e.eph && OwnPk(s.role, e.keys.rx) == e.eph
    && (e.eph == s.ephPk ==> s.phase == Established && e.keys == s.dataKeys)
  }

  /** The replay window holds nothing but what was handed up under the current keys. */
  ghost predicate AcceptedOk(s: Session) {
    forall c | c in s.accepted :: exists d ::
        d in s.hist.delivered && SealedUnder(d, s.dataKeys.rx) && d.body.counter == c
  }

  ghost predicate NoNonceReuse(log: seq<Datagram>) {
    forall j, k | 0 <= j < k < |log| :: !SameNonce(log[j], log[k])
  }

  /** Handshake messages go out with strictly increasing counters: a responder accepts an INIT only
      with a higher counter than any before. */
  ghost predicate CountersIncrease(log: seq<Datagram>, key: SessionKey) {
    forall j, k | 0 <= j < k < |log| && SealedUnder(log[j], key) && SealedUnder(log[k], key) ::
      log[j].body.counter < log[k].body.counter
  }

  ghost predicate EphemeralsUsedOnce(epochs: seq<Epoch>) {
    forall j, k | 0 <= j < k < |epochs| :: epochs[j].eph != epochs[k].eph
  }

  ghost predicate Inv(s: Session) {
    && StaticKeysOk(s) && PhaseOk(s)
    && (forall d | d in s.hist.sealed :: SealedOk(s, d))
    && (forall d | d in s.hist.delivered :: DeliveredOk(s, d))
    && (forall e | e in s.hist.epochs :: EpochOk(s, e))
    && AcceptedOk(s) && CountersIncrease(s.hist.sealed, s.staticKeys.tx)
    && NoNonceReuse(s.hist.sealed) && NoNonceReuse(s.hist.delivered) && EphemeralsUsedOnce(s.hist.epochs)
  }

  /** No counter of the session has passed `n`. */
  predicate Bounded(s: Session, n: nat) {
    s.handshakeCounter <= n && s.txCounter <= n
  }

  lemma NonceSnoc(log: seq<Datagram>, d: Datagram)
    requires NoNonceReuse(log) && forall e | e in log :: !SameNonce(e, d)
    ensures NoNonceReuse(log + [d])
  {
    forall j, k | 0 <= j < k < |log + [d]| ensures !SameNonce((log + [d])[j], (log + [d])[k]) {
      assert log[j] in log;
    }
  }

  lemma IncreaseSnoc(log: seq<Datagram>, key: SessionKey, d: Datagram)
    requires CountersIncrease(log, key) && SealedUnder(d, key)
    requires forall e | e in log && SealedUnder(e, key) :: e.body.counter < d.body.counter
    ensures CountersIncrease(log + [d], key)
  {
    forall j, k | 0 <= j < k < |log + [d]| && SealedUnder((log + [d])[j], key) && SealedUnder((log + [d])[k], key)
      ensures (log + [d])[j].body.counter < (log + [d])[k].body.counter
    {
      assert log[j] in log;
    }
  }

  lemma EpochSnoc(epochs: seq<Epoch>, e: Epoch)
    requires EphemeralsUsedOnce(epochs) && forall f | f in epochs :: f.eph != e.eph
    ensures EphemeralsUsedOnce(epochs + [e])
  {
    forall j, k | 0 <= j < k < |epochs + [e]| ensures (epochs + [e])[j].eph != (epochs + [e])[k].eph {
      assert epochs[j] in epochs;
    }
  }

  lemma StartKeeps(s: Session)
    requires Inv(s)
    ensures Inv(Start(s))
  {
  }

  lemma BuildInitKeeps(s: Session, outLen: nat, n: nat)
    requires Inv(s) && Bounded(s, n) && n + 1 < TWO_TO_THE_64
    ensures Inv(BuildInit(s, outLen).s)
  {
    var o := BuildInit(s, outLen);
    if o.reply.Sent? {
      IncreaseSnoc(s.hist.sealed, s.staticKeys.tx, o.reply.msg);
      NonceSnoc(s.hist.sealed, o.reply.msg);
    }
  }

  lemma EstablishKeeps(s: Session, keys: KeyPair)
    requires Inv(s) && s.phase == Pending
    requires keys.tx.half == TxHalf(s.role) && keys.rx.half == RxHalf(s.role)
    requires OwnPk(s.role, keys.tx) == OwnPk(s.role, keys.rx) == s.ephPk
    requires s.ephPk.secret in keys.tx.shared && s.ephPk.secret in keys.rx.shared
    ensures Inv(Establish(s, keys))
  {
    EpochSnoc(s.hist.epochs, Epoch(s.ephPk, keys));
  }

  /** The answer to an INIT with a counter above all answered before, from a pending session. */
  lemma AnswerKeeps(s: Session, keys: KeyPair, counter: U64, msg: Datagram)
    requires Inv(s) && s.role == Responder && s.phase == Pending && !(s.haveSeen && counter <= s.highestSeen)
    requires keys.tx.half == TxHalf(s.role) && keys.rx.half == RxHalf(s.role)
    requires OwnPk(s.role, keys.tx) == OwnPk(s.role, keys.rx) == s.ephPk
    requires s.ephPk.secret in keys.tx.shared && s.ephPk.secret in keys.rx.shared
    requires msg == Datagram(HANDSHAKE_RESPONSE, Box(s.staticKeys.tx, counter, Key(s.ephPk)))
    ensures Inv(LogSealed(Establish(s, keys).(haveSeen := true, highestSeen := counter), msg))
  {
    EstablishKeeps(s, keys);
    NonceSnoc(s.hist.sealed, msg);
    IncreaseSnoc(s.hist.sealed, s.staticKeys.tx, msg);
  }

  lemma HandleInitKeeps(s: Session, d: Datagram, outLen: nat)
    requires Inv(s)
    ensures Inv(HandleInit(s, d, outLen).s)
  {
    if InitAccepted(s, d, outLen) {
      var s1 := if s.phase == Established then Start(s) else s;
      if s.phase == Established {
        StartKeeps(s);
      }
      var keys := Derive(Responder, s1.ephPk, s1.ephSk, d.body.plain.pk);
      if keys.Some? {
        AnswerKeeps(s1, keys.value, d.body.counter,
                    Datagram(HANDSHAKE_RESPONSE, Box(s1.staticKeys.tx, d.body.counter, Key(s1.ephPk))));
      }
    }
  }

  lemma HandleResponseKeeps(s: Session, d: Datagram)
    requires Inv(s)
    ensures Inv(HandleResponse(s, d).s)
  {
    if HandleResponse(s, d).reply.Done? {
      EstablishKeeps(s, Derive(Initiator, s.ephPk, s.ephSk, d.body.plain.pk).value);
    }
  }

  lemma SealDataKeeps(s: Session, payload: seq<Byte>, outLen: nat, n: nat)
    requires Inv(s) && Bounded(s, n) && n + 1 < TWO_TO_THE_64
    ensures Inv(SealData(s, payload, outLen).s)
  {
    var o := SealData(s, payload, outLen);
    if o.reply.Sent? {
      NonceSnoc(s.hist.sealed, o.reply.msg);
    }
  }

  lemma OpenDataKeeps(s: Session, d: Datagram, outLen: nat)
    requires Inv(s)
    ensures Inv(OpenData(s, d, outLen).s)
  {
    if OpenData(s, d, outLen).reply.Received? {
      NonceSnoc(s.hist.delivered, d);
      assert forall e | e in s.hist.delivered :: e in (s.hist.delivered + [d]);
      assert d in s.hist.delivered + [d];
    }
  }

  lemma DoKeeps(s: Session, c: Call, n: nat)
    requires Inv(s) && Bounded(s, n) && n + 1 < TWO_TO_THE_64
    ensures Inv(Do(s, c).s) && Bounded(Do(s, c).s, n + 1)
  {
    match c
    case StartCall => StartKeeps(s);
    case BuildInitCall(outLen) => BuildInitKeeps(s, outLen, n);
    case HandleInitCall(msg, outLen) => HandleInitKeeps(s, msg, outLen);
    case HandleResponseCall(msg) => HandleResponseKeeps(s, msg);
    case SealDataCall(payload, outLen) => SealDataKeeps(s, payload, outLen, n);
    case OpenDataCall(msg, outLen) => OpenDataKeeps(s, msg, outLen);
  }

  // ---------------------------------------------------------------- every run of one session

  function Run(s: Session, calls: seq<Call>): Session {
    if calls == [] then s else Do(Run(s, calls[..|calls| - 1]), calls[|calls| - 1]).s
  }

  lemma {:induction false} RunKeeps(s: Session, calls: seq<Call>, n: nat)
    requires Inv(s) && Bounded(s, n) && n + |calls| < TWO_TO_THE_64
    ensures Inv(Run(s, calls)) && Bounded(Run(s, calls), n + |calls|)
  {
    if calls == [] {
    } else {
      var before := calls[..|calls| - 1];
      RunKeeps(s, before, n);
      DoKeeps(Run(s, before), calls[|calls| - 1], n + |before|);
    }
  }

  lemma InitEstablishesInv(role: Role, owner: nat, node: nat, peer: PublicKey, wallClock: U64)
    requires Init(role, owner, node, peer, wallClock).Some?
    ensures Inv(Init(role, owner, node, peer, wallClock).value)
    ensures Bounded(Init(role, owner, node, peer, wallClock).value, wallClock)
  {
  }

  /** Whatever datagrams a session is fed and in whatever order it is called, as long as its
      counters do not run out: it never seals twice with one key and counter, its
      handshake counters only grow, it never hands up two
      messages sealed with one key and counter, and never establishes two key sets from one
      ephemeral key; its ephemeral secret is live exactly while a handshake is pending. */
  lemma SessionSafety(role: Role, owner: nat, node: nat, peer: PublicKey, wallClock: U64, calls: seq<Call>)
    requires Init(role, owner, node, peer, wallClock).Some?
    requires wallClock + |calls| < TWO_TO_THE_64
    ensures var s := Run(Init(role, owner, node, peer, wallClock).value, calls);
            && NoNonceReuse(s.hist.sealed)
            && CountersIncrease(s.hist.sealed, s.staticKeys.tx)
            && NoNonceReuse(s.hist.delivered)
            && EphemeralsUsedOnce(s.hist.epochs)
            && (s.phase == Pending ==>
                s.txCounter == 0 && s.accepted == {} && s.ephPk == PublicOf(s.ephSk) && s.ephSk.Ephemeral?)
            && (s.phase == Established ==> s.ephSk == Zeroed)
  {
    InitEstablishesInv(role, owner, node, peer, wallClock);
    RunKeeps(Init(role, owner, node, peer, wallClock).value, calls, wallClock);
  }

  /** A refused INIT leaves the session alone, except in one case: it was authentic and fresh, the
      session was established, and its ephemeral key fails the exchange. */
  lemma RefusedInitChangesNothing(s: Session, d: Datagram, outLen: nat)
    requires HandleInit(s, d, outLen).reply.Refused?
    ensures HandleInit(s, d, outLen).s == s
       <==> !(InitAccepted(s, d, outLen) && s.phase == Established && d.body.plain.pk == SmallOrder)
  {
    if InitAccepted(s, d, outLen) && s.phase == Established {
      assert HandleInit(s, d, outLen).s.drawn == s.drawn + 1;
    }
  }

  /** The exception is reachable: a responder answers one INIT, then refuses a later one whose ephemeral key
      fails the exchange, and is no longer established. */
  lemma RefusedInitCanRestart(owner: nat, node: nat, peer: PublicKey, clock: U64, c: U64, later: U64, pk: PublicKey)
    requires peer.PublicOf? && pk.PublicOf? && c < later
    ensures var s0 := Init(Responder, owner, node, peer, clock).value;
            var s := Run(s0,
                         [HandleInitCall(Datagram(HANDSHAKE_INIT, Box(s0.staticKeys.rx, c, Key(pk))),
                                         HANDSHAKE_MSG_LEN)]);
            var o := HandleInit(s, Datagram(HANDSHAKE_INIT, Box(s0.staticKeys.rx, later, Key(SmallOrder))),
                                HANDSHAKE_MSG_LEN);
            s.phase == Established && o.reply.Refused? && o.s.phase == Pending
  {
    var s0 := Init(Responder, owner, node, peer, clock).value;
    var call := HandleInitCall(Datagram(HANDSHAKE_INIT, Box(s0.staticKeys.rx, c, Key(pk))), HANDSHAKE_MSG_LEN);
    assert [call][..0] == [];
    assert Run(s0, [call]) == Do(s0, call).s;
  }

  /** The buffer is filled without the message being accepted exactly when the message is authentic, fits, and
      is stale or replayed; an accepted message is always in the buffer. */
  lemma BufferFilledUnaccepted(s: Session, d: Datagram, outLen: nat)
    ensures Decrypted(s, d, outLen).Some? && OpenData(s, d, outLen).reply.Refused?
       <==> Decrypted(s, d, outLen).Some? && !Replay.Fresh(s.accepted, d.body.counter)
    ensures OpenData(s, d, outLen).reply.Received? ==>
        OpenData(s, d, outLen).reply == Received(Decrypted(s, d, outLen).value)
  {
  }

  /** Such a message is at hand after every accepted one: opening it again is refused, and fills the buffer. */
  lemma ReplayFillsBuffer(s: Session, d: Datagram, outLen: nat)
    requires OpenData(s, d, outLen).reply.Received?
    ensures var o := OpenData(s, d, outLen);
            OpenData(o.s, d, outLen) == Outcome(o.s, Refused) && Decrypted(o.s, d, outLen) == Some(o.reply.payload)
  {
  }
}
