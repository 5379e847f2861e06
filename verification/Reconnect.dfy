/**
 One handshake attempt between two daemons that have any number of other peers: a timer pass of the initiator,
 the INIT delivered to the other daemon, and its answer delivered back, each from some source address.
 */
module Reconnect {
  import opened Words
  import opened Terms
  import opened Sessions
  import opened Peers
  import opened Daemon
  import opened EndToEnd
  import Links

  /** The pass and its lookups, then the source addresses and times of the two datagrams. */
  datatype Try = Try(passAt: U64, lookups: seq<Option<Endpoint>>, fromA: Endpoint, answerAt: U64, fromB: Endpoint,
                     doneAt: U64)

  /** The pass finds the peer silent for too long, or its keys too old, and knows or learns its address. */
  predicate Due(p: Peer, now: U64, lookup: Option<Endpoint>) {
    && p.session.role == Initiator && (p.resolved || lookup.Some?)
    && (Sub64(now, p.lastRx) >= 15000 || (p.session.phase == Established && Sub64(now, p.lastDone) >= 45000))
  }

  function AfterPass(w: World, try: Try): World
    requires InRange(w)
  {
    EndToEnd.Next(w, AtA(Timers(try.passAt, try.lookups)))
  }

  function AfterInit(w: World, init: Datagram, try: Try): World
    requires InRange(w)
  {
    EndToEnd.Next(w, AtB(FromUdp(try.fromA, init, try.answerAt, true, true)))
  }

  function AfterResponse(w: World, response: Datagram, try: Try): World
    requires InRange(w)
  {
    EndToEnd.Next(w, AtA(FromUdp(try.fromB, response, try.doneAt, true, true)))
  }

  function SealedA(w: World): seq<Datagram>
    requires InRange(w)
  {
    w.na.peers[w.x].session.hist.sealed
  }

  function SealedB(w: World): seq<Datagram>
    requires InRange(w)
  {
    w.nb.peers[w.y].session.hist.sealed
  }

  /** The whole attempt; the answer is delivered if there is one. */
  function Attempt(w: World, try: Try): World
    requires InRange(w)
  {
    var w1 := AfterPass(w, try);
    if SealedA(w1) == [] then w1
    else
      var w2 := AfterInit(w1, Links.Last(SealedA(w1)), try);
      if |SealedB(w2)| <= |SealedB(w1)| then w2 else AfterResponse(w2, Links.Last(SealedB(w2)), try)
  }

  /** The source address of the INIT is unknown to the other daemon, or relationship y is the first known there. */
  ghost predicate InitReaches(w: World, try: Try)
    requires InRange(w)
  {
    UnknownAddress(w.nb.peers, try.fromA) || KnownFirst(w.nb.peers, try.fromA, w.y)
  }

  /** Relationship x is the first that the initiator's daemon knows at the source address of the answer. */
  ghost predicate ResponseReaches(w: World, try: Try)
    requires InRange(w)
  {
    KnownFirst(AfterPass(w, try).na.peers, try.fromB, w.x)
  }

  // ---------------------------------------------------------------- the pass

  /** The link after the keepalive that the pass may send first. */
  function KeptAlive(w: World, try: Try): Links.Link
    requires InRange(w)
  {
    LinkOf(w).(i := Keepalive(w.na.peers[w.x], try.passAt).session)
  }

  lemma KeepaliveKeeps(l: Links.Link, p: Peer, q: Session, h0: U64, m: nat, now: U64)
    requires Links.LinkInv(l, h0) && l.i == p.session && Bounded(l.i, m) && m + 2 < TWO_TO_THE_64
    requires q == Keepalive(p, now).session
    ensures Links.LinkInv(l.(i := q), h0) && Bounded(q, m + 1) && q.hist.epochs == l.i.hist.epochs
    ensures q.owner == l.i.owner
  {
    if q != p.session {
      var c := SealDataCall([], SEALED_BUF_SIZE);
      Links.InitiatorMoveKeeps(l, h0, c, m);
      assert l.(i := q) == Links.Next(l, Links.AtInitiator(c));
    }
  }

  lemma PassAttempts(w: World, try: Try)
    requires InRange(w) && |try.lookups| == |w.na.peers| && Due(w.na.peers[w.x], try.passAt, try.lookups[w.x])
    ensures var w1, l := AfterPass(w, try), KeptAlive(w, try);
            w1.nb == w.nb && w1.a == w.a && w1.b == w.b && LinkOf(w1) == l.(i := StartAndBuild(l.i))
  {
    var w1, p := AfterPass(w, try), w.na.peers[w.x];
    assert w1.na.peers[w.x] == Tick(p, try.passAt, try.lookups[w.x]);
  }

  // ---------------------------------------------------------------- the INIT at the other daemon

  lemma OutsidersRefuse(l: Links.Link, s: Session, init: Datagram)
    requires Outsider(l, s) && init.Datagram? && init.body.Box? && Links.LinkKey(l, init.body.key)
    ensures !InitAccepted(s, init, HANDSHAKE_MSG_LEN)
  {
  }

  /** The relationship the INIT is for, if its address leads there or nowhere. */
  lemma InitArrives(n: Node, l: Links.Link, y: nat, m: nat, init: Datagram, from: Endpoint, now: U64)
    requires y < |n.peers| && SessionsOk(n, l, y, m) && n.peers[y].session.role == Responder
    requires init.Datagram? && init.kind == HANDSHAKE_INIT && init.body.Box? && Links.LinkKey(l, init.body.key)
    requires HandleInit(n.peers[y].session, init, HANDSHAKE_MSG_LEN).reply.Sent?
    requires FindByAddr(n.peers, from, 0).None? || FindByAddr(n.peers, from, 0) == Some(y)
    ensures Step(n, FromUdp(from, init, now, true, true)).peers[y].session ==
        HandleInit(n.peers[y].session, init, HANDSHAKE_MSG_LEN).s
  {
    if FindByAddr(n.peers, from, 0).None? {
      forall j | 0 <= j < y && n.peers[j].session.role == Responder
        ensures !InitAccepted(n.peers[j].session, init, HANDSHAKE_MSG_LEN)
      {
        OutsidersRefuse(l, n.peers[j].session, init);
      }
      FindResponderFinds(n.peers, init, 0, y);
    }
  }

  /** A datagram from an address known first at another relationship leaves this one alone. */
  lemma GoesElsewhere(n: Node, k: nat, msg: Datagram, from: Endpoint, now: U64)
    requires k < |n.peers| && FindByAddr(n.peers, from, 0).Some? && FindByAddr(n.peers, from, 0) != Some(k)
    ensures Step(n, FromUdp(from, msg, now, true, true)).peers[k] == n.peers[k]
  {
  }

  /** An answer from an unknown address is dropped. */
  lemma ResponseDropped(n: Node, msg: Datagram, from: Endpoint, now: U64)
    requires FindByAddr(n.peers, from, 0).None? && msg.Datagram? && msg.kind == HANDSHAKE_RESPONSE
    ensures Step(n, FromUdp(from, msg, now, true, true)) == n
  {
  }

  lemma ResponseArrives(n: Node, k: nat, msg: Datagram, from: Endpoint, now: U64)
    requires k < |n.peers| && FindByAddr(n.peers, from, 0) == Some(k)
    requires msg.Datagram? && msg.kind == HANDSHAKE_RESPONSE && n.peers[k].session.role == Initiator
    ensures Step(n, FromUdp(from, msg, now, true, true)).peers[k].session == HandleResponse(n.peers[k].session, msg).s
  {
  }

  lemma EmittedIsObtainable(w: World, n: Node, k: nat, d: Datagram)
    requires InRange(w) && (n == w.na || n == w.nb) && k < |n.peers| && d in n.peers[k].session.hist.sealed
    ensures Obtainable(w, d)
  {
    assert Emitted(n, d);
  }

  // ---------------------------------------------------------------- the attempt

  /** What the INIT does to the link; the rest of the world before it is that of w after the pass. */
  lemma InitStep(w: World, l: Links.Link, h0: U64, m: nat, try: Try, v: World, init: Datagram)
    requires InRange(w) && SessionsOk(w.nb, l, w.y, m) && LinkOf(w) == l && init in SealedA(w)
    requires init.Datagram? && init.kind == HANDSHAKE_INIT && init.body.Box? && Links.LinkKey(l, init.body.key)
    requires l.r.role == Responder && HandleInit(l.r, init, HANDSHAKE_MSG_LEN).reply.Sent?
    requires v == AfterInit(w, init, try)
    ensures v.na == w.na && v.a == w.a && v.b == w.b
    ensures LinkOf(v) == if InitReaches(w, try) then l.(r := HandleInit(l.r, init, HANDSHAKE_MSG_LEN).s) else l
  {
    EmittedIsObtainable(w, w.na, w.x, init);
    FindsFirst(w.nb.peers, try.fromA);
    if InitReaches(w, try) {
      InitArrives(w.nb, l, w.y, m, init, try.fromA, try.answerAt);
    } else {
      GoesElsewhere(w.nb, w.y, init, try.fromA, try.answerAt);
    }
  }

  lemma ResponseStep(w: World, l: Links.Link, try: Try, v: World, response: Datagram)
    requires InRange(w) && LinkOf(w) == l && response in SealedB(w)
    requires response.Datagram? && response.kind == HANDSHAKE_RESPONSE && l.i.role == Initiator
    requires v == AfterResponse(w, response, try)
    ensures LinkOf(v) == if KnownFirst(w.na.peers, try.fromB, w.x)
        then l.(i := HandleResponse(l.i, response).s) else l
  {
    EmittedIsObtainable(w, w.nb, w.y, response);
    FindsFirst(w.na.peers, try.fromB);
    if FindByAddr(w.na.peers, try.fromB, 0) == Some(w.x) {
      ResponseArrives(w.na, w.x, response, try.fromB, try.doneAt);
    } else if FindByAddr(w.na.peers, try.fromB, 0).None? {
      ResponseDropped(w.na, response, try.fromB, try.doneAt);
    } else {
      GoesElsewhere(w.na, w.x, response, try.fromB, try.doneAt);
    }
  }

  lemma AttemptSeals(s: Session)
    requires s.role == Initiator
    ensures StartAndBuild(s).hist.sealed != [] && StartAndBuild(s).owner == s.owner
  {
  }

  /** Where the attempt leaves the link. */
  lemma AttemptLink(w: World, h0: U64, m: nat, try: Try)
    requires InRange(w) && WorldInv(w, h0, m) && m + 5 < TWO_TO_THE_64
    requires |try.lookups| == |w.na.peers| && Due(w.na.peers[w.x], try.passAt, try.lookups[w.x])
    ensures InRange(Attempt(w, try))
    ensures InitReaches(w, try) && ResponseReaches(w, try) ==>
        LinkOf(Attempt(w, try)) == Links.Handshake(KeptAlive(w, try))
    ensures !(InitReaches(w, try) && ResponseReaches(w, try)) ==> LinkOf(Attempt(w, try)).i.phase == Pending
  {
    var l, w1 := KeptAlive(w, try), AfterPass(w, try);
    KeepaliveKeeps(LinkOf(w), w.na.peers[w.x], l.i, h0, m, try.passAt);
    PassAttempts(w, try);
    AttemptSeals(l.i);
    var k := LinkOf(w1);
    var init := Links.Last(SealedA(w1));
    var r := HandleInit(l.r, init, HANDSHAKE_MSG_LEN).s;
    Links.HandshakeIs(l, h0, m + 1, k, init, r);
    SessionsFrame(w.nb, LinkOf(w), k, w.y, m, m);
    var w2 := AfterInit(w1, init, try);
    InitStep(w1, k, h0, m, try, w2, init);
    if InitReaches(w, try) {
      var response := Links.Last(r.hist.sealed);
      ResponseStep(w2, k.(r := r), try, AfterResponse(w2, response, try), response);
    }
  }

  /** A keepalive before the attempt makes no difference to what it achieves. */
  lemma KeptAliveRecovers(l: Links.Link, p: Peer, k: Links.Link, h0: U64, m: nat, now: U64)
    requires Links.LinkInv(l, h0) && l.i == p.session && Bounded(l.i, m) && Bounded(l.r, m) && m + 5 < TWO_TO_THE_64
    requires k == l.(i := Keepalive(p, now).session)
    ensures Links.Renewed(l, Links.Handshake(k))
  {
    KeepaliveKeeps(l, p, k.i, h0, m, now);
    Links.Recovery(k, h0, m + 1);
  }

  /** From every state that the invariant allows, one attempt reconnects the pair if and only if the two
      datagrams come from addresses that lead to the two relationships. */
  lemma AttemptReconnects(w: World, h0: U64, m: nat, try: Try)
    requires InRange(w) && WorldInv(w, h0, m) && m + 5 < TWO_TO_THE_64
    requires |try.lookups| == |w.na.peers| && Due(w.na.peers[w.x], try.passAt, try.lookups[w.x])
    ensures InRange(Attempt(w, try))
    ensures Links.Renewed(LinkOf(w), LinkOf(Attempt(w, try))) <==> InitReaches(w, try) && ResponseReaches(w, try)
  {
    AttemptLink(w, h0, m, try);
    KeptAliveRecovers(LinkOf(w), w.na.peers[w.x], KeptAlive(w, try), h0, m, try.passAt);
  }

  lemma ReconnectsAfter(w: World, h0: U64, m: nat, hs: seq<Happening>, v: World, top: nat, try: Try)
    requires InRange(w) && WorldInv(w, h0, m) && m + 2 * |hs| == top && top + 5 < TWO_TO_THE_64
    requires v == EndToEnd.Run(w, hs)
    requires |try.lookups| == |v.na.peers| && Due(v.na.peers[w.x], try.passAt, try.lookups[w.x])
    ensures InRange(Attempt(v, try))
    ensures Links.Renewed(LinkOf(v), LinkOf(Attempt(v, try))) <==> InitReaches(v, try) && ResponseReaches(v, try)
  {
    EndToEnd.RunKeeps(w, h0, m, hs, v, top);
    AttemptReconnects(v, h0, top, try);
  }

  /** After every run of two daemons: one due attempt, its INIT and its answer delivered, leaves both ends
      established with fresh mirrored keys if and only if the INIT comes from an address that is unknown or
      known first at the right relationship, and the answer from one known first at the right relationship. */
  lemma ReconnectionBetweenDaemons(w: World, ua: seq<Startup>, ub: seq<Startup>, ta: U64, tb: U64, m: nat,
                                   hs: seq<Happening>, try: Try)
    requires WorldBooted(w, ua, ub, ta, tb, m) && m + 2 * |hs| + 5 < TWO_TO_THE_64
    requires var v := EndToEnd.Run(w, hs);
        |try.lookups| == |v.na.peers| && Due(v.na.peers[w.x], try.passAt, try.lookups[w.x])
    ensures var v := EndToEnd.Run(w, hs);
            && InRange(Attempt(v, try))
            && (Links.Renewed(LinkOf(v), LinkOf(Attempt(v, try))) <==> InitReaches(v, try) && ResponseReaches(v, try))
  {
    BootWorld(w, ua, ub, ta, tb, m);
    ReconnectsAfter(w, ua[w.x].wallClock, m, hs, EndToEnd.Run(w, hs), m + 2 * |hs|, try);
  }
}
