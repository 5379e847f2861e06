/**
 Two [Peer] sections of one role that name the same key. They share their long-term keys but not their
 counters, so what each relationship keeps by itself does not hold across the two.
 */
module Duplicates {
  import opened Words
  import opened Terms
  import opened Sessions
  import opened Peers
  import opened Daemon
  import opened EndToEnd
  import opened Attribution

  // ---------------------------------------------------------------- no nonce twice in one daemon

  ghost predicate SealApart(s: Session, t: Session) {
    forall d, e | d in s.hist.sealed && e in t.hist.sealed :: !SameNonce(d, e)
  }

  /** No key and counter have been used for two seals anywhere in the daemon. */
  ghost predicate NoncesUnique(n: Node) {
    && (forall k | 0 <= k < |n.peers| :: NoNonceReuse(n.peers[k].session.hist.sealed))
    && (forall j, k | 0 <= j < k < |n.peers| :: SealApart(n.peers[j].session, n.peers[k].session))
  }

  /** Every session draws its own ephemeral keys. */
  ghost predicate OwnersDistinct(us: seq<Startup>) {
    forall j, k | 0 <= j < k < |us| :: us[j].owner != us[k].owner
  }

  predicate SameSection(u: Startup, v: Startup) {
    u.role == v.role && u.peer == v.peer
  }

  ghost predicate SectionsDistinct(us: seq<Startup>) {
    forall j, k | 0 <= j < k < |us| :: !SameSection(us[j], us[k])
  }

  lemma SessionsSealApart(s: Session, t: Session)
    requires Inv(s) && Inv(t) && s.owner != t.owner && (s.role == t.role ==> s.staticKeys.tx != t.staticKeys.tx)
    ensures SealApart(s, t)
  {
    forall d, e | d in s.hist.sealed && e in t.hist.sealed ensures !SameNonce(d, e) {
      assert SealedOk(s, d) && SealedOk(t, e);
    }
  }

  lemma {:induction false} RunKeepsRole(n: Node, events: seq<Event>, k: nat)
    requires k < |n.peers|
    ensures var s, e := n.peers[k].session, Daemon.Run(n, events).peers[k].session;
            e.role == s.role && e.owner == s.owner && e.staticKeys == s.staticKeys
  {
    if events == [] {
    } else {
      var before, e := events[..|events| - 1], events[|events| - 1];
      RunKeepsRole(n, before, k);
      StepAt(Daemon.Run(n, before), e, k);
      PeerStepKeepsRole(Daemon.Run(n, before), e, k, Daemon.Run(n, events).peers[k]);
    }
  }

  lemma BootRole(node: nat, u: Startup)
    requires u.peer.PublicOf?
    ensures var s := BootPeer(node, u).session;
            s.role == u.role && s.owner == u.owner
                && s.staticKeys == Derive(u.role, PublicOf(Static(node)), Static(node), u.peer).value
  {
  }

  lemma SectionsSealApart(n: Node, node: nat, us: seq<Startup>, t: U64, m: nat, events: seq<Event>, j: nat, k: nat)
    requires Booted(n, node, us, t) && ClocksBelow(us, m) && m + 2 * |events| < TWO_TO_THE_64
    requires j < k < |us| && us[j].owner != us[k].owner && !SameSection(us[j], us[k])
    ensures SealApart(Daemon.Run(n, events).peers[j].session, Daemon.Run(n, events).peers[k].session)
  {
    BootedSound(n, node, us, t, m);
    RunSound(n, events, m, m + 2 * |events|);
    assert n.peers[j] == BootPeer(node, us[j]) && n.peers[k] == BootPeer(node, us[k]);
    BootRole(node, us[j]);
    BootRole(node, us[k]);
    RunKeepsRole(n, events, j);
    RunKeepsRole(n, events, k);
    SessionsSealApart(Daemon.Run(n, events).peers[j].session, Daemon.Run(n, events).peers[k].session);
  }

  /** On every run of a daemon whose sections are distinct, no key and counter are used for two seals. */
  lemma DaemonNoncesUnique(n: Node, node: nat, us: seq<Startup>, t: U64, m: nat, events: seq<Event>)
    requires Booted(n, node, us, t) && ClocksBelow(us, m) && m + 2 * |events| < TWO_TO_THE_64
    requires OwnersDistinct(us) && SectionsDistinct(us)
    ensures NoncesUnique(Daemon.Run(n, events))
  {
    var v := Daemon.Run(n, events);
    forall k | 0 <= k < |v.peers| ensures NoNonceReuse(v.peers[k].session.hist.sealed) {
      DaemonSafety(n, node, us, t, m, events, k);
    }
    forall j, k | 0 <= j < k < |v.peers| ensures SealApart(v.peers[j].session, v.peers[k].session) {
      SectionsSealApart(n, node, us, t, m, events, j, k);
    }
  }

  // ---------------------------------------------------------------- two responder sections with one key

  /** The key under which a responder on `node` receives handshakes from the holder of `peer`. */
  function InitKey(node: nat, peer: PublicKey): SessionKey
    requires peer.PublicOf?
  {
    SessionKey({Static(node), peer.secret}, peer, PublicOf(Static(node)), Second)
  }

  function InitFrom(node: nat, peer: PublicKey, counter: U64, pk: PublicKey): Datagram
    requires peer.PublicOf?
  {
    Datagram(HANDSHAKE_INIT, Box(InitKey(node, peer), counter, Key(pk)))
  }

  /** It is what the peer itself seals when it attempts a handshake. */
  lemma InitFromIsHonest(node: nat, p: nat, owner: nat, clock: U64)
    ensures var s := Init(Initiator, owner, p, PublicOf(Static(node)), clock).value;
            BuildInit(s, HANDSHAKE_MSG_LEN).reply == Sent(InitFrom(node, PublicOf(Static(p)), clock, s.ephPk))
  {
    assert {Static(p), Static(node)} == {Static(node), Static(p)};
  }

  predicate ResponderFor(u: Startup, peer: PublicKey) {
    u.role == Responder && u.peer == peer
  }

  /** Sections j and k are the first two that answer `peer`. */
  ghost predicate FirstTwo(us: seq<Startup>, peer: PublicKey, j: nat, k: nat) {
    && j < k < |us| && ResponderFor(us[j], peer) && ResponderFor(us[k], peer)
    && forall i | 0 <= i < k && i != j :: !ResponderFor(us[i], peer)
  }

  lemma {:induction false} FirstOf(us: seq<Startup>, peer: PublicKey, from: nat, k: nat) returns (j: nat)
    requires from <= k < |us| && ResponderFor(us[k], peer)
    ensures from <= j <= k && ResponderFor(us[j], peer) && forall i | from <= i < j :: !ResponderFor(us[i], peer)
    decreases k - from
  {
    if ResponderFor(us[from], peer) {
      j := from;
    } else {
      j := FirstOf(us, peer, from + 1, k);
    }
  }

  lemma FindFirstTwo(us: seq<Startup>, peer: PublicKey, x: nat, y: nat) returns (j: nat, k: nat)
    requires x < y < |us| && ResponderFor(us[x], peer) && ResponderFor(us[y], peer)
    ensures FirstTwo(us, peer, j, k)
  {
    j := FirstOf(us, peer, 0, x);
    k := FirstOf(us, peer, j + 1, y);
  }

  /** A responder session with its first ephemeral key. */
  ghost predicate FirstKey(s: Session, node: nat, u: Startup)
    requires u.peer.PublicOf?
  {
    && s.role == Responder && s.ephPk == PublicOf(Ephemeral(u.owner, 0))
    && s.staticKeys == Derive(Responder, PublicOf(Static(node)), Static(node), u.peer).value
  }

  ghost predicate Waiting(s: Session, node: nat, u: Startup)
    requires u.peer.PublicOf?
  {
    FirstKey(s, node, u) && !s.haveSeen && s.phase == Pending
  }

  predicate AnswerOf(d: Datagram, s: Session, counter: U64) {
    SealedUnder(d, s.staticKeys.tx) && d.body.counter == counter && d.body.plain == Key(s.ephPk)
  }

  ghost predicate Answering(s: Session, node: nat, u: Startup, counter: U64)
    requires u.peer.PublicOf?
  {
    && FirstKey(s, node, u) && s.haveSeen && s.highestSeen == counter && s.phase == Established
    && exists d :: d in s.hist.sealed && AnswerOf(d, s, counter)
  }

  lemma BootWaits(node: nat, u: Startup)
    requires u.peer.PublicOf? && u.role == Responder
    ensures Waiting(BootPeer(node, u).session, node, u)
  {
  }

  lemma WaitingAnswers(s: Session, node: nat, u: Startup, counter: U64, pk: PublicKey)
    requires u.peer.PublicOf? && pk.PublicOf? && Waiting(s, node, u)
    ensures var o := HandleInit(s, InitFrom(node, u.peer, counter, pk), HANDSHAKE_MSG_LEN);
            o.reply.Sent? && Answering(o.s, node, u, counter)
  {
    var o := HandleInit(s, InitFrom(node, u.peer, counter, pk), HANDSHAKE_MSG_LEN);
    assert {Static(node), u.peer.secret} == s.staticKeys.rx.shared;
    assert o.s.hist.sealed[|s.hist.sealed|] in o.s.hist.sealed;
  }

  lemma OthersRefuse(s: Session, node: nat, u: Startup, peer: PublicKey, counter: U64, pk: PublicKey)
    requires u.peer.PublicOf? && peer.PublicOf? && FirstKey(s, node, u) && u.peer != peer
    ensures !InitAccepted(s, InitFrom(node, peer, counter, pk), HANDSHAKE_MSG_LEN)
  {
  }

  lemma AnsweredRefuses(s: Session, node: nat, u: Startup, counter: U64, pk: PublicKey)
    requires u.peer.PublicOf? && Answering(s, node, u, counter)
    ensures !InitAccepted(s, InitFrom(node, u.peer, counter, pk), HANDSHAKE_MSG_LEN)
  {
  }

  /** An INIT from an unknown address, answered by the first responder that accepts it. */
  lemma StrangerAnswered(n: Node, from: Endpoint, msg: Datagram, now: U64, target: nat)
    requires target < |n.peers| && n.peers[target].session.role == Responder && FindByAddr(n.peers, from, 0).None?
    requires msg.Datagram? && msg.kind == HANDSHAKE_INIT
    requires HandleInit(n.peers[target].session, msg, HANDSHAKE_MSG_LEN).reply.Sent?
    requires forall j | 0 <= j < target && n.peers[j].session.role == Responder ::
               !InitAccepted(n.peers[j].session, msg, HANDSHAKE_MSG_LEN)
    ensures var s := HandleInit(n.peers[target].session, msg, HANDSHAKE_MSG_LEN).s;
            Step(n, FromUdp(from, msg, now, true, true)) ==
                n.(peers := n.peers[target := Peer(s, true, from, now, now, now)])
  {
    FindResponderFinds(n.peers, msg, 0, target);
  }

  /** Before section k is reached, everybody but section j refuses the message. */
  ghost predicate OnlyTwo(n: Node, node: nat, us: seq<Startup>, peer: PublicKey, j: nat, k: nat) {
    && |n.peers| == |us| && FirstTwo(us, peer, j, k)
    && forall i | 0 <= i < k && i != j && n.peers[i].session.role == Responder ::
         us[i].role == Responder && us[i].peer.PublicOf? && FirstKey(n.peers[i].session, node, us[i])
  }

  lemma FirstAnswer(n: Node, node: nat, us: seq<Startup>, peer: PublicKey, j: nat, k: nat,
                    from: Endpoint, counter: U64, pk: PublicKey, now: U64)
    requires peer.PublicOf? && pk.PublicOf? && OnlyTwo(n, node, us, peer, j, k) && FindByAddr(n.peers, from, 0).None?
    requires Waiting(n.peers[j].session, node, us[j])
    ensures var s := HandleInit(n.peers[j].session, InitFrom(node, peer, counter, pk), HANDSHAKE_MSG_LEN).s;
            && Answering(s, node, us[j], counter)
            && Step(n, FromUdp(from, InitFrom(node, peer, counter, pk), now, true, true)) ==
                 n.(peers := n.peers[j := Peer(s, true, from, now, now, now)])
  {
    var msg := InitFrom(node, peer, counter, pk);
    WaitingAnswers(n.peers[j].session, node, us[j], counter, pk);
    forall i | 0 <= i < j && n.peers[i].session.role == Responder
      ensures !InitAccepted(n.peers[i].session, msg, HANDSHAKE_MSG_LEN)
    {
      OthersRefuse(n.peers[i].session, node, us[i], peer, counter, pk);
    }
    StrangerAnswered(n, from, msg, now, j);
  }

  lemma SecondAnswer(n: Node, node: nat, us: seq<Startup>, peer: PublicKey, j: nat, k: nat,
                     from: Endpoint, counter: U64, pk: PublicKey, now: U64)
    requires peer.PublicOf? && pk.PublicOf? && OnlyTwo(n, node, us, peer, j, k) && FindByAddr(n.peers, from, 0).None?
    requires Answering(n.peers[j].session, node, us[j], counter) && Waiting(n.peers[k].session, node, us[k])
    ensures var s := HandleInit(n.peers[k].session, InitFrom(node, peer, counter, pk), HANDSHAKE_MSG_LEN).s;
            && Answering(s, node, us[k], counter)
            && Step(n, FromUdp(from, InitFrom(node, peer, counter, pk), now, true, true)) ==
                 n.(peers := n.peers[k := Peer(s, true, from, now, now, now)])
  {
    var msg := InitFrom(node, peer, counter, pk);
    WaitingAnswers(n.peers[k].session, node, us[k], counter, pk);
    forall i | 0 <= i < k && n.peers[i].session.role == Responder
      ensures !InitAccepted(n.peers[i].session, msg, HANDSHAKE_MSG_LEN)
    {
      if i == j {
        AnsweredRefuses(n.peers[j].session, node, us[j], counter, pk);
      } else {
        OthersRefuse(n.peers[i].session, node, us[i], peer, counter, pk);
      }
    }
    StrangerAnswered(n, from, msg, now, k);
  }

  /** Two sessions with one key, each of which has answered the same counter. */
  lemma BothAnswered(s: Session, t: Session, node: nat, u: Startup, v: Startup, counter: U64)
    requires u.peer.PublicOf? && u.peer == v.peer && u.owner != v.owner
    requires Answering(s, node, u, counter) && Answering(t, node, v, counter)
    ensures exists d, e :: d in s.hist.sealed && e in t.hist.sealed && SameNonce(d, e) && d != e
  {
    var d :| d in s.hist.sealed && AnswerOf(d, s, counter);
    var e :| e in t.hist.sealed && AnswerOf(e, t, counter);
    assert SameNonce(d, e) && d != e;
  }

  /** One INIT of the peer, delivered from one unknown address and then from another. */
  function SentTwice(msg: Datagram, a: Endpoint, b: Endpoint, now: U64): seq<Event> {
    [FromUdp(a, msg, now, true, true), FromUdp(b, msg, now, true, true)]
  }

  lemma RunTwo(n: Node, d: Event, e: Event)
    ensures Daemon.Run(n, [d, e]) == Step(Step(n, d), e)
  {
    assert [d, e][..1] == [d] && [d][..0] == [];
    assert Daemon.Run(n, [d]) == Step(n, d);
  }

  lemma BootedOnlyTwo(n: Node, node: nat, us: seq<Startup>, t: U64, peer: PublicKey, j: nat, k: nat)
    requires Booted(n, node, us, t) && FirstTwo(us, peer, j, k)
    ensures OnlyTwo(n, node, us, peer, j, k)
    ensures Waiting(n.peers[j].session, node, us[j]) && Waiting(n.peers[k].session, node, us[k])
  {
    forall i | 0 <= i < |us|
      ensures n.peers[i].session.role == us[i].role
      ensures us[i].role == Responder ==> Waiting(n.peers[i].session, node, us[i])
    {
      assert n.peers[i] == BootPeer(node, us[i]);
      BootRole(node, us[i]);
      if us[i].role == Responder {
        BootWaits(node, us[i]);
      }
    }
  }

  lemma Unknown(n: Node, m: Node, j: nat, a: Endpoint, b: Endpoint)
    requires j < |n.peers| && a != b && FindByAddr(n.peers, b, 0).None?
    requires |m.peers| == |n.peers| && m.peers[j].addr == a && forall i | 0 <= i < |n.peers| && i != j ::
        m.peers[i] == n.peers[i]
    ensures FindByAddr(m.peers, b, 0).None?
  {
  }

  /** Sections j and k have both answered `counter`, at addresses a and b; nothing else has changed. */
  ghost predicate BothAnswering(n: Node, v: Node, node: nat, us: seq<Startup>, j: nat, k: nat, a: Endpoint, b: Endpoint,
                                counter: U64)
    requires |n.peers| == |v.peers| == |us| && j < |us| && k < |us| && us[j].peer.PublicOf? && us[k].peer.PublicOf?
  {
    && Answering(v.peers[j].session, node, us[j], counter) && Answering(v.peers[k].session, node, us[k], counter)
    && v.peers[j].addr == a && v.peers[k].addr == b
    && forall i | 0 <= i < |us| && i != j && i != k :: v.peers[i] == n.peers[i]
  }

  lemma TwoAnswers(n: Node, node: nat, us: seq<Startup>, peer: PublicKey, j: nat, k: nat,
                   a: Endpoint, b: Endpoint, counter: U64, pk: PublicKey, d: Event, e: Event, now: U64)
    requires OnlyTwo(n, node, us, peer, j, k) && pk.PublicOf? && peer.PublicOf?
    requires Waiting(n.peers[j].session, node, us[j]) && Waiting(n.peers[k].session, node, us[k])
    requires a != b && FindByAddr(n.peers, a, 0).None? && FindByAddr(n.peers, b, 0).None?
    requires d == FromUdp(a, InitFrom(node, peer, counter, pk), now, true, true)
    requires e == FromUdp(b, InitFrom(node, peer, counter, pk), now, true, true)
    ensures BothAnswering(n, Step(Step(n, d), e), node, us, j, k, a, b, counter)
  {
    FirstAnswer(n, node, us, peer, j, k, a, counter, pk, now);
    var n1 := Step(n, d);
    Unknown(n, n1, j, a, b);
    SecondAnswer(n1, node, us, peer, j, k, b, counter, pk, now);
  }

  /** With two responder sections for one key, both relationships answer the same INIT: they establish
      different keys and seal different answers under one key and counter. */
  lemma OneInitTwoAnswers(n: Node, node: nat, us: seq<Startup>, t: U64, peer: PublicKey, j: nat, k: nat,
                          a: Endpoint, b: Endpoint, counter: U64, pk: PublicKey)
    requires Booted(n, node, us, t) && OwnersDistinct(us) && FirstTwo(us, peer, j, k) && pk.PublicOf? && peer.PublicOf?
    requires a != b && FindByAddr(n.peers, a, 0).None? && FindByAddr(n.peers, b, 0).None?
    ensures var v := Daemon.Run(n, SentTwice(InitFrom(node, peer, counter, pk), a, b, t));
            BothAnswering(n, v, node, us, j, k, a, b, counter) && !NoncesUnique(v)
  {
    var msg := InitFrom(node, peer, counter, pk);
    var d, e := FromUdp(a, msg, t, true, true), FromUdp(b, msg, t, true, true);
    BootedOnlyTwo(n, node, us, t, peer, j, k);
    TwoAnswers(n, node, us, peer, j, k, a, b, counter, pk, d, e, t);
    RunTwo(n, d, e);
    SharedNonce(Daemon.Run(n, [d, e]), node, us, j, k, counter);
  }

  lemma SharedNonce(v: Node, node: nat, us: seq<Startup>, j: nat, k: nat, counter: U64)
    requires j < k < |us| == |v.peers| && us[j].peer.PublicOf? && us[j].peer == us[k].peer && us[j].owner != us[k].owner
    requires Answering(v.peers[j].session, node, us[j], counter) && Answering(v.peers[k].session, node, us[k], counter)
    ensures !NoncesUnique(v)
  {
    BothAnswered(v.peers[j].session, v.peers[k].session, node, us[j], us[k], counter);
    assert !SealApart(v.peers[j].session, v.peers[k].session);
  }

  // ---------------------------------------------------------------- one datagram, two relationships

  lemma AnsweringRestarts(s: Session, node: nat, u: Startup, counter: U64, next: U64)
    requires u.peer.PublicOf? && Answering(s, node, u, counter) && counter < next
    ensures Restarts(s, InitFrom(node, u.peer, next, SmallOrder))
  {
    assert {Static(node), u.peer.secret} == s.staticKeys.rx.shared;
  }

  /** Reachable, so the exception is real: after the same INIT was answered by both relationships, one more
      INIT of the peer, whose ephemeral key fails the exchange, restarts them both. */
  lemma OneDatagramTwoRelationships(n: Node, node: nat, us: seq<Startup>, t: U64, peer: PublicKey, j: nat, k: nat,
                                    a: Endpoint, b: Endpoint, c: Endpoint, counter: U64, next: U64, pk: PublicKey)
    requires Booted(n, node, us, t) && OwnersDistinct(us) && FirstTwo(us, peer, j, k) && pk.PublicOf? && peer.PublicOf?
    requires a != b && b != c && a != c && counter < next
    requires FindByAddr(n.peers, a, 0).None? && FindByAddr(n.peers, b, 0).None? && FindByAddr(n.peers, c, 0).None?
    ensures var v := Daemon.Run(n, SentTwice(InitFrom(node, peer, counter, pk), a, b, t));
            var e := FromUdp(c, InitFrom(node, peer, next, SmallOrder), t, true, true);
            Changed(v, e, j) && Changed(v, e, k)
  {
    OneInitTwoAnswers(n, node, us, t, peer, j, k, a, b, counter, pk);
    var v := Daemon.Run(n, SentTwice(InitFrom(node, peer, counter, pk), a, b, t));
    var e := FromUdp(c, InitFrom(node, peer, next, SmallOrder), t, true, true);
    AnsweringRestarts(v.peers[j].session, node, us[j], counter, next);
    AnsweringRestarts(v.peers[k].session, node, us[k], counter, next);
    StillUnknown(n, v, j, k, a, b, c);
    StrangerChanges(v, e, j);
    StrangerChanges(v, e, k);
  }

  lemma StillUnknown(n: Node, v: Node, j: nat, k: nat, a: Endpoint, b: Endpoint, c: Endpoint)
    requires j < |n.peers| && k < |n.peers| && a != c && b != c && FindByAddr(n.peers, c, 0).None?
    requires |v.peers| == |n.peers| && v.peers[j].addr == a && v.peers[k].addr == b
    requires forall i | 0 <= i < |n.peers| && i != j && i != k :: v.peers[i] == n.peers[i]
    ensures FindByAddr(v.peers, c, 0).None?
  {
  }

  // ---------------------------------------------------------------- two initiator sections with one key

  function Pass(now: U64, peers: nat): Event {
    Timers(now, seq(peers, _ => Some(Endpoint(0, 0))))
  }

  lemma PassTicks(v: Node, now: U64, k: nat)
    requires k < |v.peers|
    ensures Step(v, Pass(now, |v.peers|)).peers[k] == Tick(v.peers[k], now, Some(Endpoint(0, 0)))
  {
  }

  /** The time of the last of `count` timer passes 15 s apart. */
  function PassTime(t: U64, count: nat): (now: nat)
    ensures now >= t
  {
    if count == 0 then t else PassTime(t, count - 1) + SESSION_TIMEOUT_MS
  }

  lemma {:induction false} PassTimeIs(t: U64, count: nat)
    ensures PassTime(t, count) == t + 15000 * count
  {
    if count == 0 {
    } else {
      PassTimeIs(t, count - 1);
    }
  }

  /** Timer passes 15 s apart, every name resolving. */
  function Passes(t: U64, peers: nat, count: nat): (events: seq<Event>)
    requires PassTime(t, count) < TWO_TO_THE_64
    ensures |events| == count
  {
    if count == 0 then [] else Passes(t, peers, count - 1) + [Pass(PassTime(t, count), peers)]
  }

  lemma {:induction false} PassesClocked(t: U64, peers: nat, count: nat)
    requires PassTime(t, count) < TWO_TO_THE_64
    ensures Clocked(Passes(t, peers, count), t) && LastTime(Passes(t, peers, count), t) == PassTime(t, count)
  {
    if count == 0 {
    } else {
      PassesClocked(t, peers, count - 1);
    }
  }

  predicate SealedInit(s: Session, d: Datagram, counter: U64) {
    && d in s.hist.sealed && SealedUnder(d, s.staticKeys.tx) && d.body.counter == counter
    && d.body.plain.Key? && d.body.plain.pk.PublicOf? && d.body.plain.pk.secret.Ephemeral?
    && d.body.plain.pk.secret.owner == s.owner
  }

  ghost predicate Used(s: Session, counter: U64) {
    exists d :: SealedInit(s, d, counter)
  }

  /** Nobody answers: the session is pending and has sealed an INIT for every counter from `w0` on. */
  ghost predicate Trying(p: Peer, w0: U64, attempts: nat, now: U64) {
    && p.session.role == Initiator && p.session.phase == Pending && p.lastRx <= now
    && w0 + attempts <= p.session.handshakeCounter <= w0 + attempts + 1
    && forall c: U64 | w0 <= c < p.session.handshakeCounter :: Used(p.session, c)
  }

  lemma AttemptSeals(s: Session, w0: U64)
    requires s.role == Initiator && s.handshakeCounter + 1 < TWO_TO_THE_64
    requires forall c: U64 | w0 <= c < s.handshakeCounter :: Used(s, c)
    ensures var e := StartAndBuild(s);
            && e.handshakeCounter == s.handshakeCounter + 1 && e.phase == Pending && e.role == Initiator
            && forall c: U64 | w0 <= c < e.handshakeCounter :: Used(e, c)
  {
    var e := StartAndBuild(s);
    assert SealedInit(e, e.hist.sealed[|s.hist.sealed|], s.handshakeCounter);
    forall c: U64 | w0 <= c < s.handshakeCounter ensures Used(e, c) {
      assert Used(s, c);
      var d :| SealedInit(s, d, c);
      assert SealedInit(e, d, c);
    }
  }

  lemma PassKeepsTrying(p: Peer, w0: U64, attempts: nat, before: U64, now: U64, at: Endpoint)
    requires Trying(p, w0, attempts, before) && now - before >= SESSION_TIMEOUT_MS && w0 + attempts + 2 < TWO_TO_THE_64
    ensures Trying(Tick(p, now, Some(at)), w0, attempts + 1, now)
  {
    AttemptSeals(p.session, w0);
  }

  lemma BootTries(node: nat, u: Startup, t: U64)
    requires u.peer.PublicOf? && u.role == Initiator && u.before <= u.at <= t && u.wallClock + 1 < TWO_TO_THE_64
    ensures Trying(BootPeer(node, u), u.wallClock, 0, t)
  {
    AttemptSeals(Init(u.role, u.owner, node, u.peer, u.wallClock).value, u.wallClock);
  }

  lemma PassesRun(n: Node, t: U64, count: nat)
    requires count > 0 && PassTime(t, count) < TWO_TO_THE_64
    ensures Daemon.Run(n, Passes(t, |n.peers|, count)) ==
              Step(Daemon.Run(n, Passes(t, |n.peers|, count - 1)), Pass(PassTime(t, count), |n.peers|))
  {
    var events := Passes(t, |n.peers|, count);
    assert events[..|events| - 1] == Passes(t, |n.peers|, count - 1);
  }

  lemma OnePass(u: Node, v: Node, k: nat, w0: U64, attempts: nat, before: U64, now: U64)
    requires k < |u.peers| && Trying(u.peers[k], w0, attempts, before) && now == before + SESSION_TIMEOUT_MS
    requires w0 + attempts + 2 < TWO_TO_THE_64 && v == Step(u, Pass(now, |u.peers|))
    ensures Trying(v.peers[k], w0, attempts + 1, now)
  {
    PassTicks(u, now, k);
    PassKeepsTrying(u.peers[k], w0, attempts, before, now, Endpoint(0, 0));
  }

  lemma {:induction false} PassesTry(n: Node, t: U64, count: nat, k: nat, w0: U64, v: Node)
    requires PassTime(t, count) < TWO_TO_THE_64 && w0 + count + 2 < TWO_TO_THE_64
    requires k < |n.peers| && Trying(n.peers[k], w0, 0, t) && v == Daemon.Run(n, Passes(t, |n.peers|, count))
    ensures Trying(v.peers[k], w0, count, PassTime(t, count))
    decreases count
  {
    if count == 0 {
    } else {
      var u := Daemon.Run(n, Passes(t, |n.peers|, count - 1));
      PassesTry(n, t, count - 1, k, w0, u);
      PassesRun(n, t, count);
      OnePass(u, v, k, w0, count - 1, PassTime(t, count - 1), PassTime(t, count));
    }
  }

  lemma BothUsed(s: Session, t: Session, counter: U64)
    requires Used(s, counter) && Used(t, counter) && s.staticKeys == t.staticKeys && s.owner != t.owner
    ensures exists d, e :: d in s.hist.sealed && e in t.hist.sealed && SameNonce(d, e) && d != e
  {
    var d :| SealedInit(s, d, counter);
    var e :| SealedInit(t, e, counter);
    assert SameNonce(d, e) && d != e;
  }

  /** With two initiator sections for one key, the relationship seeded earlier comes round to the seed of the
      other one: both seal an INIT with that counter under one key. */
  lemma {:induction false} TwoInitiatorsCollide(n: Node, node: nat, us: seq<Startup>, t: U64, j: nat, k: nat,
                                                count: nat)
    requires Booted(n, node, us, t) && j < |us| && k < |us| && us[j].owner != us[k].owner && SameSection(us[j], us[k])
    requires us[j].role == Initiator && us[j].wallClock <= us[k].wallClock
    requires count == us[k].wallClock - us[j].wallClock + 1
    requires PassTime(t, count) < TWO_TO_THE_64 && us[k].wallClock + count + 2 < TWO_TO_THE_64
    ensures var v := Daemon.Run(n, Passes(t, |us|, count));
            exists d, e ::
                d in v.peers[j].session.hist.sealed && e in v.peers[k].session.hist.sealed && SameNonce(d, e) && d != e
  {
    assert n.peers[j] == BootPeer(node, us[j]) && n.peers[k] == BootPeer(node, us[k]);
    BootTries(node, us[j], t);
    BootTries(node, us[k], t);
    var v := Daemon.Run(n, Passes(t, |us|, count));
    PassesTry(n, t, count, j, us[j].wallClock, v);
    PassesTry(n, t, count, k, us[k].wallClock, v);
    BootRole(node, us[j]);
    BootRole(node, us[k]);
    RunKeepsRole(n, Passes(t, |us|, count), j);
    RunKeepsRole(n, Passes(t, |us|, count), k);
    BothUsed(v.peers[j].session, v.peers[k].session, us[k].wallClock);
  }

  // ---------------------------------------------------------------- exactly when

  lemma {:induction false} AddressBound(peers: seq<Peer>) returns (ip: nat)
    ensures forall k | 0 <= k < |peers| :: peers[k].addr.ip < ip
  {
    if peers == [] {
      ip := 0;
    } else {
      var last := peers[|peers| - 1].addr.ip;
      ip := AddressBound(peers[..|peers| - 1]);
      ip := if ip <= last then last + 1 else ip;
    }
  }

  lemma FreshAddresses(peers: seq<Peer>, ip: nat)
    requires forall k | 0 <= k < |peers| :: peers[k].addr.ip < ip
    ensures FindByAddr(peers, Endpoint(ip, 0), 0).None? && FindByAddr(peers, Endpoint(ip, 1), 0).None?
  {
  }

  lemma TwiceClocked(msg: Datagram, a: Endpoint, b: Endpoint, now: U64)
    ensures Clocked(SentTwice(msg, a, b, now), now)
  {
  }

  lemma OneInitCollides(n: Node, node: nat, us: seq<Startup>, t: U64, peer: PublicKey, j: nat, k: nat, ip: nat,
                        events: seq<Event>)
    requires Booted(n, node, us, t) && OwnersDistinct(us) && FirstTwo(us, peer, j, k) && peer.PublicOf?
    requires forall k | 0 <= k < |n.peers| :: n.peers[k].addr.ip < ip
    requires events == SentTwice(InitFrom(node, peer, 0, PublicOf(Ephemeral(0, 0))), Endpoint(ip, 0), Endpoint(ip, 1),
                                 t)
    ensures Clocked(events, t) && !NoncesUnique(Daemon.Run(n, events))
  {
    var a, b, pk := Endpoint(ip, 0), Endpoint(ip, 1), PublicOf(Ephemeral(0, 0));
    FreshAddresses(n.peers, ip);
    OneInitTwoAnswers(n, node, us, t, peer, j, k, a, b, 0, pk);
    TwiceClocked(InitFrom(node, peer, 0, pk), a, b, t);
  }

  lemma RespondersCollide(n: Node, node: nat, us: seq<Startup>, t: U64, x: nat, y: nat) returns (events: seq<Event>)
    requires Booted(n, node, us, t) && OwnersDistinct(us)
    requires x < y < |us| && SameSection(us[x], us[y]) && us[x].role == Responder
    ensures Clocked(events, t) && |events| == 2 && !NoncesUnique(Daemon.Run(n, events))
  {
    var peer := us[x].peer;
    var j, k := FindFirstTwo(us, peer, x, y);
    var ip := AddressBound(n.peers);
    events := SentTwice(InitFrom(node, peer, 0, PublicOf(Ephemeral(0, 0))), Endpoint(ip, 0), Endpoint(ip, 1), t);
    OneInitCollides(n, node, us, t, peer, j, k, ip, events);
  }

  lemma InitiatorsCollide(n: Node, node: nat, us: seq<Startup>, t: U64, j: nat, k: nat, count: nat)
    returns (events: seq<Event>)
    requires Booted(n, node, us, t) && OwnersDistinct(us) && j < |us| && k < |us| && j != k && SameSection(us[j], us[k])
    requires us[j].role == Initiator && us[j].wallClock <= us[k].wallClock
    requires count == us[k].wallClock - us[j].wallClock + 1
    requires PassTime(t, count) < TWO_TO_THE_64 && us[k].wallClock + count + 2 < TWO_TO_THE_64
    ensures Clocked(events, t) && |events| == count && !NoncesUnique(Daemon.Run(n, events))
  {
    TwoInitiatorsCollide(n, node, us, t, j, k, count);
    PassesClocked(t, |us|, count);
    events := Passes(t, |us|, count);
    SharedAcross(Daemon.Run(n, events), if j < k then j else k, if j < k then k else j, j, k);
  }

  /** A run that uses one key and counter twice, whenever two sections of one role name one key. */
  lemma CollisionReachable(n: Node, node: nat, us: seq<Startup>, t: U64, m: nat, x: nat, y: nat)
    requires Booted(n, node, us, t) && OwnersDistinct(us) && ClocksBelow(us, m)
    requires x < y < |us| && SameSection(us[x], us[y])
    requires t + 15000 * (m + 1) < TWO_TO_THE_64 && 3 * m + 4 < TWO_TO_THE_64
    ensures exists events ::
        Clocked(events, t) && m + 2 * |events| < TWO_TO_THE_64 && !NoncesUnique(Daemon.Run(n, events))
  {
    if us[x].role == Responder {
      var events := RespondersCollide(n, node, us, t, x, y);
      assert Clocked(events, t) && !NoncesUnique(Daemon.Run(n, events));
    } else {
      var inOrder := us[x].wallClock <= us[y].wallClock;
      var j, k := if inOrder then x else y, if inOrder then y else x;
      var count := us[k].wallClock - us[j].wallClock + 1;
      PassTimeIs(t, count);
      var events := InitiatorsCollide(n, node, us, t, j, k, count);
      assert Clocked(events, t) && !NoncesUnique(Daemon.Run(n, events));
    }
  }

  lemma SharedAcross(v: Node, x: nat, y: nat, j: nat, k: nat)
    requires x < y < |v.peers| && ((j == x && k == y) || (j == y && k == x))
    requires exists d, e ::
        d in v.peers[j].session.hist.sealed && e in v.peers[k].session.hist.sealed && SameNonce(d, e) && d != e
    ensures !NoncesUnique(v)
  {
    var d, e :| d in v.peers[j].session.hist.sealed && e in v.peers[k].session.hist.sealed && SameNonce(d, e) && d != e;
    assert SameNonce(e, d);
    assert !SealApart(v.peers[x].session, v.peers[y].session);
  }

  /** The rule of the cipher, that no key and counter are used twice, is kept on every run of a daemon if and
      only if no two of its sections have one role and name one key. */
  lemma NoncesUniqueIff(n: Node, node: nat, us: seq<Startup>, t: U64, m: nat)
    requires Booted(n, node, us, t) && OwnersDistinct(us) && ClocksBelow(us, m)
    requires t + 15000 * (m + 1) < TWO_TO_THE_64 && 3 * m + 4 < TWO_TO_THE_64
    ensures (forall events | Clocked(events, t) && m + 2 * |events| < TWO_TO_THE_64 ::
             NoncesUnique(Daemon.Run(n, events)))
       <==> SectionsDistinct(us)
  {
    if SectionsDistinct(us) {
      forall events | Clocked(events, t) && m + 2 * |events| < TWO_TO_THE_64
        ensures NoncesUnique(Daemon.Run(n, events))
      {
        DaemonNoncesUnique(n, node, us, t, m, events);
      }
    } else {
      var x, y :| 0 <= x < y < |us| && SameSection(us[x], us[y]);
      CollisionReachable(n, node, us, t, m, x, y);
    }
  }
}
