/**
 What each event does to the daemon, field by field: which relationship it concerns, what is sealed, which
 timestamps move and when an address is learned, with the outcomes of sends and writes told apart.
 */
module Effects {
  import opened Words
  import opened Terms
  import opened Sessions
  import opened Peers
  import opened Daemon
  import opened Attribution
  import Replay
  import Routing

  // ---------------------------------------------------------------- what a session seals

  /** The data message that carries this payload next. */
  function DataBox(s: Session, payload: seq<Byte>): Datagram {
    Datagram(DATA, Box(s.dataKeys.tx, s.txCounter, Packet(payload)))
  }

  /** The INIT of the next attempt, with the next ephemeral key. */
  function InitBox(s: Session): Datagram {
    Datagram(HANDSHAKE_INIT, Box(s.staticKeys.tx, s.handshakeCounter, Key(PublicOf(Ephemeral(s.owner, s.drawn)))))
  }

  /** The answer to an INIT: an established session answers with the next ephemeral key. */
  function AnswerBox(s: Session, counter: U64): Datagram {
    var pk := if s.phase == Established then PublicOf(Ephemeral(s.owner, s.drawn)) else s.ephPk;
    Datagram(HANDSHAKE_RESPONSE, Box(s.staticKeys.tx, counter, Key(pk)))
  }

  function Logged(s: Session, d: Datagram): History {
    s.hist.(sealed := s.hist.sealed + [d])
  }

  /** The session with one more data message sealed: the counter is spent. */
  function Spent(s: Session, payload: seq<Byte>): Session {
    s.(txCounter := (s.txCounter + 1) % 0x1_0000_0000_0000_0000, hist := Logged(s, DataBox(s, payload)))
  }

  /** The session with one more attempt made. */
  function Attempted(s: Session): Session {
    var sk := Ephemeral(s.owner, s.drawn);
    s.(phase := Pending, ephPk := PublicOf(sk), ephSk := sk, drawn := s.drawn + 1, txCounter := 0, accepted := {},
       pendingCounter := s.handshakeCounter, handshakeCounter := (s.handshakeCounter + 1) % 0x1_0000_0000_0000_0000,
       hist := Logged(s, InitBox(s)))
  }

  // ---------------------------------------------------------------- a packet from the TUN device

  /** A routed packet spends a counter of an established session whether it is sent or not. */
  ghost predicate Sends(p: Peer, q: Peer, packet: seq<Byte>, now: U64, sent: bool) {
    q == if p.session.phase == Established && |packet| <= 2048
         then p.(session := Spent(p.session, packet), lastTx := if sent then now else p.lastTx) else p
  }

  /** A packet from the TUN device concerns the first relationship whose AllowedIPs cover its destination. */
  lemma TunEffect(n: Node, packet: seq<Byte>, now: U64, sent: bool, m: Node)
    requires m == Step(n, FromTun(packet, now, sent))
    ensures m.tunIn == n.tunIn + [packet] && m.tunOut == n.tunOut && m.table == n.table && |m.peers| == |n.peers|
    ensures forall k | 0 <= k < |n.peers| :: var dest := Routing.ParseDest(packet);
              if dest.Some? && Routing.IsFirstMatch(n.table, dest.value, k)
              then Sends(n.peers[k], m.peers[k], packet, now, sent) else m.peers[k] == n.peers[k]
  {
    var route := Routing.RoutePacket(n.table, packet);
    forall k | 0 <= k < |n.peers|
      ensures route == Some(k) <==>
                Routing.ParseDest(packet).Some? && Routing.IsFirstMatch(n.table, Routing.ParseDest(packet).value, k)
    {
      if Routing.ParseDest(packet).Some? && Routing.IsFirstMatch(n.table, Routing.ParseDest(packet).value, k) {
        assert n.table[k] in n.table;
      }
    }
  }

  // ---------------------------------------------------------------- a datagram

  /** An authentic INIT for this session, newer than all it has answered, whose ephemeral key works. */
  predicate Answers(s: Session, msg: Datagram) {
    && s.role == Responder && SealedUnder(msg, s.staticKeys.rx) && msg.kind == HANDSHAKE_INIT
    && msg.body.plain.Key? && msg.body.plain.pk.PublicOf? && (s.haveSeen ==> msg.body.counter > s.highestSeen)
  }

  /** The answer to the pending INIT, with an ephemeral key that works. */
  predicate Completes(s: Session, msg: Datagram) {
    && s.role == Initiator && s.phase == Pending && SealedUnder(msg, s.staticKeys.rx)
    && msg.kind == HANDSHAKE_RESPONSE && msg.body.plain.Key? && msg.body.plain.pk.PublicOf?
    && msg.body.counter == s.pendingCounter
  }

  /** Data under the current keys that fits and is fresh. */
  predicate Accepts(s: Session, msg: Datagram) {
    && s.phase == Established && SealedUnder(msg, s.dataKeys.rx) && msg.kind == DATA && msg.body.plain.Packet?
    && |msg.body.plain.bytes| <= 2048 && Replay.Fresh(s.accepted, msg.body.counter)
  }

  /** The session that has answered: keys between its own ephemeral secret, a fresh one if it was established, and the
      one in the INIT; that secret is gone, and older INITs are refused from now on. */
  function AnsweredSession(s: Session, msg: Datagram): Session
    requires Answers(s, msg)
  {
    var again, peer := s.phase == Established, msg.body.plain.pk;
    var sk := if again then Ephemeral(s.owner, s.drawn) else s.ephSk;
    var pk := if again then PublicOf(sk) else s.ephPk;
    var shared := {sk, peer.secret};
    var keys := KeyPair(SessionKey(shared, peer, pk, Second), SessionKey(shared, peer, pk, First));
    s.(phase := Established, ephPk := pk, ephSk := Zeroed, drawn := if again then s.drawn + 1 else s.drawn,
       dataKeys := keys, txCounter := if again then 0 else s.txCounter, accepted := if again then {} else s.accepted,
       haveSeen := true, highestSeen := msg.body.counter,
       hist := History(s.hist.sealed + [AnswerBox(s, msg.body.counter)], s.hist.delivered,
                       s.hist.epochs + [Epoch(pk, keys)]))
  }

  /** The session that has taken the answer to its INIT. */
  function CompletedSession(s: Session, msg: Datagram): Session
    requires Completes(s, msg)
  {
    var peer := msg.body.plain.pk;
    var shared := {s.ephSk, peer.secret};
    var keys := KeyPair(SessionKey(shared, s.ephPk, peer, First), SessionKey(shared, s.ephPk, peer, Second));
    s.(phase := Established, ephSk := Zeroed, dataKeys := keys,
       hist := s.hist.(epochs := s.hist.epochs + [Epoch(s.ephPk, keys)]))
  }

  /** The session as a failed key exchange leaves it: waiting again, with a fresh ephemeral key. */
  function RestartedSession(s: Session): Session {
    var sk := Ephemeral(s.owner, s.drawn);
    s.(phase := Pending, ephPk := PublicOf(sk), ephSk := sk, drawn := s.drawn + 1, txCounter := 0, accepted := {})
  }

  lemma AnswersIsHandled(s: Session, msg: Datagram)
    requires msg.Datagram? && s.role == Responder
    ensures Answers(s, msg) <==> HandleInit(s, msg, HANDSHAKE_MSG_LEN).reply.Sent?
    ensures Answers(s, msg) ==> HandleInit(s, msg, HANDSHAKE_MSG_LEN).s == AnsweredSession(s, msg)
    ensures !Answers(s, msg) ==>
              HandleInit(s, msg, HANDSHAKE_MSG_LEN).s == if Restarts(s, msg) then RestartedSession(s) else s
  {
  }

  /** A peer after it has answered: its timestamps move only if the answer was sent. */
  function AfterAnswer(p: Peer, msg: Datagram, now: U64, sent: bool): Peer
    requires Answers(p.session, msg)
  {
    var q := p.(session := AnsweredSession(p.session, msg));
    if sent then q.(lastRx := now, lastTx := now, lastDone := now) else q
  }

  /** A peer after a datagram from its own address. */
  ghost predicate Receives(p: Peer, q: Peer, msg: Datagram, now: U64, sent: bool, written: bool) {
    var s := p.session;
    q == if Answers(s, msg) then AfterAnswer(p, msg, now, sent)
         else if Restarts(s, msg) then p.(session := RestartedSession(s))
         else if Completes(s, msg) then p.(session := CompletedSession(s, msg), lastRx := now, lastDone := now)
         else if Accepts(s, msg) then
           p.(session := s.(accepted := s.accepted + {msg.body.counter},
                            hist := s.hist.(delivered := s.hist.delivered + [msg])),
              lastRx := if msg.body.plain.bytes == [] || written then now else p.lastRx)
         else p
  }

  /** What goes to the TUN device: the payload of accepted data, unless it is empty or the write fails. */
  ghost function WrittenFor(p: Peer, k: nat, msg: Datagram, written: bool): seq<Write> {
    if Accepts(p.session, msg) && msg.body.plain.bytes != [] && written then [Write(k, msg.body.plain.bytes)] else []
  }

  lemma ReceiveEffect(p: Peer, k: nat, msg: Datagram, now: U64, sent: bool, written: bool)
    requires msg.Datagram?
    ensures Receives(p, FromKnown(p, msg, now, sent, written), msg, now, sent, written)
    ensures WrittenBy(p, k, msg, written) == WrittenFor(p, k, msg, written)
  {
    if p.session.role == Responder {
      AnswersIsHandled(p.session, msg);
    }
  }

  /** A datagram from an address that some peer is known at concerns the first such peer only. */
  lemma KnownEffect(n: Node, from: Endpoint, msg: Datagram, now: U64, sent: bool, written: bool, k: nat, m: Node)
    requires KnownFirst(n.peers, from, k) && msg.Datagram? && m == Step(n, FromUdp(from, msg, now, sent, written))
    ensures m == n.(peers := n.peers[k := m.peers[k]], tunOut := n.tunOut + WrittenFor(n.peers[k], k, msg, written))
    ensures Receives(n.peers[k], m.peers[k], msg, now, sent, written)
  {
    FindsFirst(n.peers, from);
    ReceiveEffect(n.peers[k], k, msg, now, sent, written);
  }

  /** An empty datagram is dropped, and so is anything but an INIT from an unknown address. */
  lemma DropEffect(n: Node, from: Endpoint, msg: Datagram, now: U64, sent: bool, written: bool)
    requires msg.Empty? || (UnknownAddress(n.peers, from) && msg.kind != HANDSHAKE_INIT)
    ensures Step(n, FromUdp(from, msg, now, sent, written)) == n
  {
    FindsFirst(n.peers, from);
  }

  /** Peer k is the first that answers the message. */
  ghost predicate FirstToAnswer(peers: seq<Peer>, msg: Datagram, k: nat) {
    k < |peers| && Answers(peers[k].session, msg) && forall j | 0 <= j < k :: !Answers(peers[j].session, msg)
  }

  /** An INIT from an unknown address is answered by the first relationship that can; the address and the
      timestamps are taken over if the answer was sent, and only the session changes if not. */
  lemma StrangerEffect(n: Node, from: Endpoint, msg: Datagram, now: U64, sent: bool, written: bool, k: nat)
    requires UnknownAddress(n.peers, from) && FirstToAnswer(n.peers, msg, k)
    ensures var s := AnsweredSession(n.peers[k].session, msg);
            Step(n, FromUdp(from, msg, now, sent, written)) ==
              n.(peers := n.peers[k := if sent then Peer(s, true, from, now, now, now) else n.peers[k].(session := s)])
  {
    FindsFirst(n.peers, from);
    AnswersIsHandled(n.peers[k].session, msg);
    forall j | 0 <= j < k && n.peers[j].session.role == Responder
      ensures !InitAccepted(n.peers[j].session, msg, HANDSHAKE_MSG_LEN)
    {
      AnswersIsHandled(n.peers[j].session, msg);
    }
    FindResponderFinds(n.peers, msg, 0, k);
  }

  lemma {:induction false} NobodyFound(peers: seq<Peer>, msg: Datagram, k: nat)
    requires k <= |peers| && msg.Datagram? && forall j | k <= j < |peers| :: !Answers(peers[j].session, msg)
    ensures FindResponder(peers, msg, k).found.None?
    decreases |peers| - k
  {
    if k == |peers| {
    } else if peers[k].session.role != Responder {
      NobodyFound(peers, msg, k + 1);
    } else {
      AnswersIsHandled(peers[k].session, msg);
      NobodyFound(WithSession(peers, k, HandleInit(peers[k].session, msg, HANDSHAKE_MSG_LEN).s), msg, k + 1);
    }
  }

  /** If no relationship can answer it, no address is learned and no timestamp moves; established relationships for
      which only its ephemeral key fails are restarted. */
  lemma UnansweredEffect(n: Node, from: Endpoint, msg: Datagram, now: U64, sent: bool, written: bool, m: Node)
    requires UnknownAddress(n.peers, from) && msg.Datagram? && msg.kind == HANDSHAKE_INIT
    requires (forall k | 0 <= k < |n.peers| :: !Answers(n.peers[k].session, msg))
    requires m == Step(n, FromUdp(from, msg, now, sent, written))
    ensures m == n.(peers := m.peers) && |m.peers| == |n.peers|
    ensures forall k | 0 <= k < |n.peers| :: var p := n.peers[k];
              m.peers[k] == if Restarts(p.session, msg) then p.(session := RestartedSession(p.session)) else p
  {
    FindsFirst(n.peers, from);
    NobodyFound(n.peers, msg, 0);
    forall k | 0 <= k < |n.peers|
      ensures var p := n.peers[k];
              m.peers[k] == if Restarts(p.session, msg) then p.(session := RestartedSession(p.session)) else p
    {
      FindResponderFrame(n.peers, msg, 0, k);
      FindResponderChanges(n.peers, msg, 0, k);
      if n.peers[k].session.role == Responder {
        AnswersIsHandled(n.peers[k].session, msg);
      }
    }
  }

  // ---------------------------------------------------------------- a timer pass

  /** A keepalive is due. */
  predicate KeepaliveDue(p: Peer, now: U64) {
    p.resolved && p.session.phase == Established && now - p.lastTx >= 5000
  }

  /** A new attempt is due: nothing heard for too long, or keys too old. */
  predicate AttemptDue(p: Peer, now: U64) {
    && p.session.role == Initiator
    && (now - p.lastRx >= 15000 || (p.session.phase == Established && now - p.lastDone >= 45000))
  }

  /** What a pass does to a peer, told from the two conditions and what DNS answers. */
  function AfterPass(p: Peer, now: U64, lookup: Option<Endpoint>): Peer {
    var q := if KeepaliveDue(p, now) then p.(session := Spent(p.session, []), lastTx := now) else p;
    if !AttemptDue(p, now) then q
    else if p.resolved then q.(session := Attempted(q.session), lastRx := now, lastTx := now)
    else if lookup.Some? then
      q.(session := Attempted(q.session), lastRx := now, lastTx := now, resolved := true, addr := lookup.value)
    else q.(lastRx := now)
  }

  lemma PassEffect(p: Peer, now: U64, lookup: Option<Endpoint>)
    requires TimersOk(p, now)
    ensures Tick(p, now, lookup) == AfterPass(p, now, lookup)
  {
    TickIsPunctual(p, now, lookup);
  }

  /** A pass leaves a peer alone if and only if nothing is due. */
  lemma IdlePass(p: Peer, now: U64, lookup: Option<Endpoint>)
    requires TimersOk(p, now)
    ensures Tick(p, now, lookup) == p
       <==> && !(p.resolved && p.session.phase == Established && now - p.lastTx >= 5000)
            && !(p.session.role == Initiator && now - p.lastRx >= 15000)
            && !(p.session.role == Initiator && p.session.phase == Established && now - p.lastDone >= 45000)
  {
    PassEffect(p, now, lookup);
    var q := AfterPass(p, now, lookup);
    if KeepaliveDue(p, now) {
      assert |q.session.hist.sealed| > |p.session.hist.sealed|;
    }
  }

  /** In a pass, a keepalive is sealed exactly when one is due, and an INIT after it exactly when an attempt is due and
      the address is known or found. */
  lemma PassSeals(p: Peer, now: U64, lookup: Option<Endpoint>)
    requires TimersOk(p, now)
    ensures Tick(p, now, lookup).session.hist.sealed == p.session.hist.sealed
              + (if KeepaliveDue(p, now) then [DataBox(p.session, [])] else [])
              + (if AttemptDue(p, now) && (p.resolved || lookup.Some?) then [InitBox(p.session)] else [])
  {
    PassEffect(p, now, lookup);
  }

  /** A whole pass is a pass over every peer. */
  lemma TimersEffect(n: Node, now: U64, lookups: seq<Option<Endpoint>>, m: Node)
    requires AllTimersOk(n, now) && |lookups| == |n.peers| && m == Step(n, Timers(now, lookups))
    ensures m == n.(peers := m.peers) && |m.peers| == |n.peers|
    ensures forall k | 0 <= k < |n.peers| :: m.peers[k] == AfterPass(n.peers[k], now, lookups[k])
  {
    forall k | 0 <= k < |n.peers| ensures m.peers[k] == AfterPass(n.peers[k], now, lookups[k]) {
      PassEffect(n.peers[k], now, lookups[k]);
    }
  }

  // ---------------------------------------------------------------- starting up

  /** A new session: keys between the two long-term secrets, an ephemeral key drawn, the counter seeded. */
  function FirstSession(node: nat, u: Startup): Session
    requires u.peer.PublicOf?
  {
    var self, first, shared := PublicOf(Static(node)), Ephemeral(u.owner, 0), {Static(node), u.peer.secret};
    var keys := if u.role == Initiator
                then KeyPair(SessionKey(shared, self, u.peer, First), SessionKey(shared, self, u.peer, Second))
                else KeyPair(SessionKey(shared, u.peer, self, Second), SessionKey(shared, u.peer, self, First));
    Session(u.role, u.owner, Pending, keys, PublicOf(first), first, 1, u.wallClock, 0, false, 0,
            NO_KEYS, 0, {}, History([], [], []))
  }

  /** An initiator makes its first attempt at once, if its peer's name resolves; everyone else waits. */
  lemma BootEffect(node: nat, u: Startup)
    requires u.peer.PublicOf?
    ensures var s := FirstSession(node, u);
            BootPeer(node, u) ==
              if u.role == Responder then Peer(s, false, Endpoint(0, 0), u.before, 0, 0)
              else if u.lookup.None? then Peer(s, false, Endpoint(0, 0), u.at, 0, 0)
              else Peer(Attempted(s), true, u.lookup.value, u.at, u.at, 0)
  {
  }

  // ---------------------------------------------------------------- where addresses come from

  /** The event makes relationship k answer an INIT from an unknown address, and the answer is sent. */
  ghost predicate Teaches(n: Node, e: Event, k: nat) {
    e.FromUdp? && e.sent && UnknownAddress(n.peers, e.from) && FirstToAnswer(n.peers, e.msg, k)
  }

  /** The source of the last INIT from an unknown address that relationship k answered with success. */
  ghost function LearnedFrom(n: Node, events: seq<Event>, k: nat): Option<Endpoint> {
    if events == [] then None
    else
      var before, e := events[..|events| - 1], events[|events| - 1];
      if Teaches(Daemon.Run(n, before), e, k) then Some(e.from) else LearnedFrom(n, before, k)
  }

  /** Only such an event changes what a responder relationship knows of its peer's address. */
  lemma ResponderAddress(n: Node, e: Event, k: nat, m: Node)
    requires k < |n.peers| && n.peers[k].session.role == Responder && m == Step(n, e)
    ensures Teaches(n, e, k) ==> m.peers[k].resolved && m.peers[k].addr == e.from
    ensures !Teaches(n, e, k) ==> m.peers[k].resolved == n.peers[k].resolved && m.peers[k].addr == n.peers[k].addr
  {
    if FromStrangerEvent(n, e) {
      StrangerAddress(n, e, k, m);
    } else {
      OtherStepsKeepEndpoint(n, e, k);
      if Teaches(n, e, k) {
        FindsFirst(n.peers, e.from);
        assert false;
      }
    }
  }

  lemma StrangerAddress(n: Node, e: Event, k: nat, m: Node)
    requires k < |n.peers| && FromStrangerEvent(n, e) && m == Step(n, e)
    ensures Teaches(n, e, k) ==> m.peers[k].resolved && m.peers[k].addr == e.from
    ensures !Teaches(n, e, k) ==> m.peers[k].resolved == n.peers[k].resolved && m.peers[k].addr == n.peers[k].addr
  {
    FindsFirst(n.peers, e.from);
    if j: nat :| FirstToAnswer(n.peers, e.msg, j) {
      StrangerEffect(n, e.from, e.msg, e.now, e.sent, e.written, j);
    } else {
      NobodyAnswers(n.peers, e.msg, |n.peers|);
      UnansweredEffect(n, e.from, e.msg, e.now, e.sent, e.written, m);
    }
  }

  lemma {:induction false} NobodyAnswers(peers: seq<Peer>, msg: Datagram, n: nat)
    requires n <= |peers| && forall j: nat :: !FirstToAnswer(peers, msg, j)
    ensures forall j | 0 <= j < n :: !Answers(peers[j].session, msg)
  {
    if n == 0 {
    } else {
      NobodyAnswers(peers, msg, n - 1);
      assert !FirstToAnswer(peers, msg, n - 1);
    }
  }

  /** After every run, a responder relationship is known at an address if and only if the last INIT from an unknown
      address that it answered, with its answer sent, came from there. */
  lemma {:induction false} AddressesAreLearned(n: Node, node: nat, us: seq<Startup>, t: U64, events: seq<Event>, k: nat)
    requires Booted(n, node, us, t) && k < |us| && us[k].role == Responder
    ensures var p := Daemon.Run(n, events).peers[k];
            && p.session.role == Responder
            && forall at :: KnownAt(p, at) <==> LearnedFrom(n, events, k) == Some(at)
  {
    if events == [] {
      assert n.peers[k] == BootPeer(node, us[k]);
    } else {
      var before, e := events[..|events| - 1], events[|events| - 1];
      AddressesAreLearned(n, node, us, t, before, k);
      var u := Daemon.Run(n, before);
      ResponderAddress(u, e, k, Step(u, e));
      StepAt(u, e, k);
      PeerStepKeepsRole(u, e, k, Step(u, e).peers[k]);
    }
  }

  /** An initiator keeps the address it has, and otherwise takes it from a lookup in a pass that makes an attempt. */
  lemma InitiatorAddress(n: Node, e: Event, k: nat, m: Node)
    requires k < |n.peers| && n.peers[k].session.role == Initiator && m == Step(n, e) && AllTimersOk(n, TimeOf(e))
    ensures var p, q := n.peers[k], m.peers[k];
            if !p.resolved && e.Timers? && |e.lookups| == |n.peers| && e.lookups[k].Some? && e.now - p.lastRx >= 15000
            then q.resolved && q.addr == e.lookups[k].value else q.resolved == p.resolved && q.addr == p.addr
  {
    if e.Timers? {
      if |e.lookups| == |n.peers| {
        TimersEffect(n, e.now, e.lookups, m);
      }
    } else {
      StepAt(n, e, k);
    }
  }
}
