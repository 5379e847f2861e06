/**
 When a pair of daemons keeps its two promises, that the ends agree on their keys and that packets are
 conserved: it depends on whether another [Peer] section has the role and the key of one of the pair's own.
 */
module Pairing {
  import opened Words
  import opened Terms
  import opened Sessions
  import opened Peers
  import opened Daemon
  import opened EndToEnd
  import Duplicates
  import Links
  import Reconnect
  import Routing

  /** What a [Peer] section says about the handshake. */
  datatype Section = Section(role: Role, peer: PublicKey)

  /** The sections of nodes a and b, and the two that name each other. */
  datatype Pair = Pair(a: nat, b: nat, sa: seq<Section>, sb: seq<Section>, x: nat, y: nat)

  ghost predicate StaticPeers(ss: seq<Section>) {
    forall k | 0 <= k < |ss| :: ss[k].peer.PublicOf? && ss[k].peer.secret.Static?
  }

  /** Section x of node a is an initiator for b, and section y of node b a responder for a. */
  ghost predicate Joined(p: Pair) {
    && p.a != p.b && p.x < |p.sa| && p.y < |p.sb| && StaticPeers(p.sa) && StaticPeers(p.sb)
    && p.sa[p.x] == Section(Initiator, PublicOf(Static(p.b))) && p.sb[p.y] == Section(Responder, PublicOf(Static(p.a)))
  }

  /** Each of the two sections is the only one of its node with that role and key. */
  ghost predicate OnlyPair(p: Pair)
    requires Joined(p)
  {
    && (forall k | 0 <= k < |p.sa| && k != p.x :: p.sa[k] != p.sa[p.x])
    && (forall k | 0 <= k < |p.sb| && k != p.y :: p.sb[k] != p.sb[p.y])
  }

  /** How the two daemons start, and what happens then. */
  datatype Course = Course(w: World, ua: seq<Startup>, ub: seq<Startup>, ta: U64, tb: U64, m: nat, hs: seq<Happening>)

  ghost predicate FromSections(us: seq<Startup>, ss: seq<Section>) {
    |us| == |ss| && forall k | 0 <= k < |us| :: us[k].role == ss[k].role && us[k].peer == ss[k].peer
  }

  /** Neither node's clock goes back. */
  ghost predicate Timed(hs: seq<Happening>, ta: U64, tb: U64) {
    && (forall k | 0 <= k < |hs| :: (if hs[k].AtA? then ta else tb) <= TimeOf(hs[k].e))
    && (forall j, k | 0 <= j < k < |hs| && hs[j].AtA? == hs[k].AtA? :: TimeOf(hs[j].e) <= TimeOf(hs[k].e))
  }

  /** A course of the two daemons, with clocks that leave the counters room. */
  ghost predicate Possible(p: Pair, c: Course) {
    && c.w.a == p.a && c.w.b == p.b && c.w.x == p.x && c.w.y == p.y
    && Booted(c.w.na, p.a, c.ua, c.ta) && Booted(c.w.nb, p.b, c.ub, c.tb)
    && FromSections(c.ua, p.sa) && FromSections(c.ub, p.sb) && Duplicates.OwnersDistinct(c.ua + c.ub)
    && ClocksBelow(c.ua, c.m) && ClocksBelow(c.ub, c.m)
    && Timed(c.hs, c.ta, c.tb) && c.m + 2 * |c.hs| < TWO_TO_THE_64
  }

  // ---------------------------------------------------------------- with one section each

  lemma OwnersApart(c: Course, j: nat, k: nat)
    requires Duplicates.OwnersDistinct(c.ua + c.ub)
    ensures j < |c.ua| && k < |c.ua| && j != k ==> c.ua[j].owner != c.ua[k].owner
    ensures j < |c.ub| && k < |c.ub| && j != k ==> c.ub[j].owner != c.ub[k].owner
    ensures j < |c.ua| && k < |c.ub| ==> c.ua[j].owner != c.ub[k].owner
  {
    var all := c.ua + c.ub;
    assert forall i | 0 <= i < |c.ua| :: all[i] == c.ua[i];
    assert forall i | 0 <= i < |c.ub| :: all[|c.ua| + i] == c.ub[i];
  }

  lemma OnlyPairBoots(p: Pair, c: Course)
    requires Joined(p) && OnlyPair(p) && Possible(p, c)
    ensures WorldBooted(c.w, c.ua, c.ub, c.ta, c.tb, c.m)
  {
    OwnersApart(c, p.x, p.y);
    forall k | 0 <= k < |c.ua| && k != p.x ensures Elsewhere(c.ua[p.x], c.ub[p.y], c.ua[p.x], c.ua[k]) {
      OwnersApart(c, k, p.x);
      OwnersApart(c, k, p.y);
      assert p.sa[k] != p.sa[p.x];
    }
    forall k | 0 <= k < |c.ub| && k != p.y ensures Elsewhere(c.ua[p.x], c.ub[p.y], c.ub[p.y], c.ub[k]) {
      OwnersApart(c, k, p.y);
      OwnersApart(c, p.x, k);
      assert p.sb[k] != p.sb[p.y];
    }
  }

  // ---------------------------------------------------------------- a start to go wrong from

  /** Every initiator of node a finds its peer, at an address of its own; section `late` starts a second later. */
  function StartA(ss: seq<Section>, late: nat): seq<Startup> {
    seq(|ss|, k requires 0 <= k < |ss| =>
      Startup(ss[k].role, k, ss[k].peer, if k == late then 1 else 0, 0, 0, Some(Endpoint(k, 0))))
  }

  /** No initiator of node b finds its peer. */
  function StartB(ss: seq<Section>, owners: nat): seq<Startup> {
    seq(|ss|, k requires 0 <= k < |ss| => Startup(ss[k].role, owners + k, ss[k].peer, 0, 0, 0, None))
  }

  /** AllowedIPs of n sections: 1.0.0.0/32 belongs to section k. */
  function OneRoute(n: nat, k: nat): Routing.Table {
    seq(n, i => Routing.Route(if i == k then [1, 0, 0, 0] else [0, 0, 0, 0], 32))
  }

  /** An IPv4 header for 1.0.0.0. */
  const PACKET: seq<Byte> := [0x45, 0, 0, 20, 0, 0, 0, 0, 64, 0, 0, 0, 2, 0, 0, 0, 1, 0, 0, 0]

  lemma PacketTakesRoute(n: nat, k: nat)
    requires k < n
    ensures Routing.RoutePacket(OneRoute(n, k), PACKET) == Some(k)
  {
    var t := OneRoute(n, k);
    var dest: Routing.Address := [1, 0, 0, 0];
    assert Routing.ParseDest(PACKET).Some? && Routing.ParseDest(PACKET).value == dest;
    assert Routing.Covers(t[k], dest);
    assert t[k] in t;
    assert Routing.Value([1, 0, 0, 0]) != Routing.Value([0, 0, 0, 0]);
  }

  function StartNode(node: nat, us: seq<Startup>, route: nat): Node
    requires forall k | 0 <= k < |us| :: us[k].peer.PublicOf?
  {
    Node(OneRoute(|us|, route), seq(|us|, k requires 0 <= k < |us| => BootPeer(node, us[k])), [], [])
  }

  ghost function StartOf(p: Pair, late: nat, routeA: nat, routeB: nat): World
    requires Joined(p)
  {
    World(p.a, p.b, p.x, p.y, StartNode(p.a, StartA(p.sa, late), routeA), StartNode(p.b, StartB(p.sb, |p.sa|), routeB))
  }

  ghost function CourseOf(p: Pair, late: nat, routeA: nat, routeB: nat, hs: seq<Happening>): Course
    requires Joined(p)
  {
    Course(StartOf(p, late, routeA, routeB), StartA(p.sa, late), StartB(p.sb, |p.sa|), 0, 0, 2, hs)
  }

  /** Everything happens at time 0. */
  ghost predicate Instant(hs: seq<Happening>) {
    forall k | 0 <= k < |hs| :: TimeOf(hs[k].e) == 0
  }

  lemma CourseIsPossible(p: Pair, late: nat, routeA: nat, routeB: nat, hs: seq<Happening>)
    requires Joined(p) && |hs| <= 7 && Instant(hs)
    ensures Possible(p, CourseOf(p, late, routeA, routeB, hs))
  {
    var c := CourseOf(p, late, routeA, routeB, hs);
    assert forall k | 0 <= k < |c.ua + c.ub| :: (c.ua + c.ub)[k].owner == k;
  }

  // ---------------------------------------------------------------- one handshake from the start

  /** The first INIT of section k of node a. */
  function FirstInit(p: Pair, k: nat, clock: U64): Datagram {
    Duplicates.InitFrom(p.b, PublicOf(Static(p.a)), clock, PublicOf(Ephemeral(k, 1)))
  }

  ghost predicate Matching(p: Pair, i: nat, r: nat) {
    && i < |p.sa| && p.sa[i] == Section(Initiator, PublicOf(Static(p.b)))
    && r < |p.sb| && p.sb[r] == Section(Responder, PublicOf(Static(p.a)))
  }

  /** What the two sections do with each other's messages from the start: e is where it leaves them. */
  ghost predicate Meet(p: Pair, s: Session, t: Session, i: nat, clock: U64, e: Links.Link) {
    var init := FirstInit(p, i, clock);
    && init in s.hist.sealed && s.role == Initiator && t.role == Responder
    && HandleInit(t, init, HANDSHAKE_MSG_LEN).reply.Sent? && HandleInit(t, init, HANDSHAKE_MSG_LEN).s == e.r
    && e.r.hist.sealed != [] && Links.Last(e.r.hist.sealed).Datagram?
    && Links.Last(e.r.hist.sealed).kind == HANDSHAKE_RESPONSE
    && HandleResponse(s, Links.Last(e.r.hist.sealed)).s == e.i
  }

  /** Both ends of a meeting are established, and in step. */
  ghost predicate Met(e: Links.Link, i: nat, r: nat, clock: U64) {
    && Links.LinkInv(e, clock) && e.i.phase == Established
    && e.i.owner == i && e.r.owner == r && e.i.pendingCounter == clock
  }

  lemma BootSessions(p: Pair, i: nat, r: nat, u: Startup, v: Startup, l: Links.Link)
    requires l == Links.Open(p.a, p.b, i, |p.sa| + r, u.wallClock, 0)
    requires u.role == Initiator && u.owner == i && u.peer == PublicOf(Static(p.b)) && u.lookup.Some?
    requires v.role == Responder && v.owner == |p.sa| + r && v.peer == PublicOf(Static(p.a)) && v.wallClock == 0
    ensures BootPeer(p.a, u).session == StartAndBuild(l.i) && BootPeer(p.b, v).session == l.r
  {
  }

  lemma FirstInitSealed(p: Pair, i: nat, clock: U64, s: Session)
    requires s == StartAndBuild(Init(Initiator, i, p.a, PublicOf(Static(p.b)), clock).value)
    ensures s.hist.sealed == [FirstInit(p, i, clock)] && s.role == Initiator
  {
    assert {Static(p.a), Static(p.b)} == {Static(p.b), Static(p.a)};
  }

  lemma OpenIsSound(p: Pair, i: nat, r: nat, clock: U64, l: Links.Link)
    requires p.a != p.b && i < |p.sa| && clock < 2 && l == Links.Open(p.a, p.b, i, |p.sa| + r, clock, 0)
    ensures Links.LinkInv(l, clock) && l.i.handshakeCounter == clock && Bounded(l.i, 2) && Bounded(l.r, 2)
    ensures l.i.owner == i && l.r.owner == |p.sa| + r
  {
    Links.OpenKeeps(p.a, p.b, i, |p.sa| + r, clock, 0);
  }

  lemma OpenMeets(p: Pair, i: nat, r: nat, clock: U64, l: Links.Link, e: Links.Link)
    requires p.a != p.b && i < |p.sa| && clock < 2 && l == Links.Open(p.a, p.b, i, |p.sa| + r, clock, 0)
    requires e == Links.Handshake(l)
    ensures Meet(p, StartAndBuild(l.i), l.r, i, clock, e)
  {
    OpenIsSound(p, i, r, clock, l);
    var k, init := l.(i := StartAndBuild(l.i)), FirstInit(p, i, clock);
    FirstInitSealed(p, i, clock, k.i);
    Links.HandshakeIs(l, clock, 2, k, init, HandleInit(l.r, init, HANDSHAKE_MSG_LEN).s);
  }

  lemma HandshakeMeets(l: Links.Link, e: Links.Link, clock: U64)
    requires Links.LinkInv(l, clock) && l.i.handshakeCounter == clock < 2 && Bounded(l.i, 2) && Bounded(l.r, 2)
    requires e == Links.Handshake(l)
    ensures Met(e, l.i.owner, l.r.owner, clock) && e.a == l.a && e.b == l.b
  {
    Links.HandshakeKeeps(l, clock, 2);
    Links.Recovery(l, clock, 2);
    Links.HandshakeFrame(l);
  }

  lemma OpenMet(p: Pair, i: nat, r: nat, clock: U64, l: Links.Link, e: Links.Link)
    requires p.a != p.b && i < |p.sa| && clock < 2
    requires l == Links.Open(p.a, p.b, i, |p.sa| + r, clock, 0) && e == Links.Handshake(l)
    ensures Met(e, i, |p.sa| + r, clock) && e.a == p.a && e.b == p.b
  {
    OpenIsSound(p, i, r, clock, l);
    HandshakeMeets(l, e, clock);
  }

  lemma Meeting(p: Pair, i: nat, r: nat, u: Startup, v: Startup, l: Links.Link, e: Links.Link)
    requires p.a != p.b && i < |p.sa| && u.wallClock < 2
    requires u.role == Initiator && u.owner == i && u.peer == PublicOf(Static(p.b)) && u.lookup.Some?
    requires v.role == Responder && v.owner == |p.sa| + r && v.peer == PublicOf(Static(p.a)) && v.wallClock == 0
    requires l == Links.Open(p.a, p.b, i, |p.sa| + r, u.wallClock, 0) && e == Links.Handshake(l)
    ensures Met(e, i, |p.sa| + r, u.wallClock) && e.a == p.a && e.b == p.b
    ensures Meet(p, BootPeer(p.a, u).session, BootPeer(p.b, v).session, i, u.wallClock, e)
  {
    BootSessions(p, i, r, u, v, l);
    OpenMeets(p, i, r, u.wallClock, l, e);
    OpenMet(p, i, r, u.wallClock, l, e);
  }

  // ---------------------------------------------------------------- the steps of a run

  /** A datagram delivered at time 0, with what it leads to sent and written. */
  function ToA(from: Endpoint, d: Datagram): Happening {
    AtA(FromUdp(from, d, 0, true, true))
  }

  function ToB(from: Endpoint, d: Datagram): Happening {
    AtB(FromUdp(from, d, 0, true, true))
  }

  /** Each peer of the node that is known at all is known at an address of its own. */
  ghost predicate OwnAddresses(n: Node) {
    forall k | 0 <= k < |n.peers| && n.peers[k].resolved :: n.peers[k].addr == Endpoint(k, 0)
  }

  ghost predicate Untouched(n: Node, m: Node, k: nat) {
    && m.table == n.table && |m.peers| == |n.peers| && k < |n.peers|
    && forall j | 0 <= j < |n.peers| && j != k :: m.peers[j] == n.peers[j]
  }

  lemma RunExtends(w: World, hs: seq<Happening>, h: Happening, more: seq<Happening>, u: World, v: World)
    requires InRange(w) && u == EndToEnd.Run(w, hs) && v == EndToEnd.Next(u, h) && more == hs + [h]
    ensures EndToEnd.Run(w, more) == v
  {
    assert more[..|hs|] == hs;
  }

  /** The answer of a meeting reaches section i of node a. */
  lemma AnswerReaches(w: World, i: nat, r: nat, e: Links.Link, d: Datagram, v: World)
    requires InRange(w) && i < |w.na.peers| && r < |w.nb.peers|
    requires OwnAddresses(w.na) && w.na.peers[i].resolved && w.na.peers[i].session.role == Initiator
    requires d in w.nb.peers[r].session.hist.sealed && d.Datagram? && d.kind == HANDSHAKE_RESPONSE
    requires HandleResponse(w.na.peers[i].session, d).s == e.i
    requires v == EndToEnd.Next(w, ToA(Endpoint(i, 0), d))
    ensures v == w.(na := v.na) && Untouched(w.na, v.na, i) && v.na.peers[i].session == e.i
    ensures OwnAddresses(v.na) && v.na.peers[i].resolved && v.na.tunIn == w.na.tunIn && v.na.tunOut == w.na.tunOut
  {
    Reconnect.EmittedIsObtainable(w, w.nb, r, d);
  }

  /** An INIT from an unknown address reaches section r of node b, if nobody before it accepts it. */
  lemma InitReaches(w: World, k: nat, r: nat, d: Datagram, from: Endpoint, v: World)
    requires InRange(w) && k < |w.na.peers| && r < |w.nb.peers| && d in w.na.peers[k].session.hist.sealed
    requires d.Datagram? && d.kind == HANDSHAKE_INIT && FindByAddr(w.nb.peers, from, 0).None?
    requires w.nb.peers[r].session.role == Responder
    requires HandleInit(w.nb.peers[r].session, d, HANDSHAKE_MSG_LEN).reply.Sent?
    requires forall j | 0 <= j < r && w.nb.peers[j].session.role == Responder ::
               !InitAccepted(w.nb.peers[j].session, d, HANDSHAKE_MSG_LEN)
    requires v == EndToEnd.Next(w, ToB(from, d))
    ensures v == w.(nb := v.nb) && Untouched(w.nb, v.nb, r) && v.nb.tunIn == w.nb.tunIn && v.nb.tunOut == w.nb.tunOut
    ensures v.nb.peers[r] == Peer(HandleInit(w.nb.peers[r].session, d, HANDSHAKE_MSG_LEN).s, true, from, 0, 0, 0)
  {
    Reconnect.EmittedIsObtainable(w, w.na, k, d);
    Duplicates.StrangerAnswered(w.nb, from, d, 0, r);
  }

  // ---------------------------------------------------------------- a packet on the wrong relationship

  /** The packet, read for section k, is sealed by it. */
  lemma PacketSealed(n: Node, k: nat, packet: seq<Byte>, d: Datagram, m: Node)
    requires k < |n.peers| && Routing.RoutePacket(n.table, packet) == Some(k) && n.tunIn == []
    requires SealData(n.peers[k].session, packet, SEALED_BUF_SIZE).reply == Sent(d)
    requires m == Step(n, FromTun(packet, 0, true))
    ensures d in m.peers[k].session.hist.sealed && m.tunIn == [packet] && m.table == n.table && m.tunOut == n.tunOut
    ensures forall j | 0 <= j < |n.peers| && j != k :: m.peers[j] == n.peers[j]
    ensures forall j: nat | j != k :: Read(m.table, m.tunIn, j) == multiset{}
  {
    assert d == Links.Last(m.peers[k].session.hist.sealed);
    assert [packet][..0] == [];
  }

  /** The packet comes out at section k of the other node. */
  lemma PacketWritten(n: Node, k: nat, packet: seq<Byte>, d: Datagram, from: Endpoint, m: Node)
    requires k < |n.peers| && FindByAddr(n.peers, from, 0) == Some(k) && n.tunOut == []
    requires 0 < |packet| <= MAX_PACKET_SIZE
    requires OpenData(n.peers[k].session, d, |packet|).reply == Received(packet)
    requires m == Step(n, FromUdp(from, d, 0, true, true))
    ensures Written(m.tunOut, k) == multiset{packet} && m.tunIn == n.tunIn
  {
    assert OpenData(n.peers[k].session, d, MAX_PACKET_SIZE).reply == Received(packet);
    assert m.tunOut == [Write(k, packet)];
    assert [Write(k, packet)][..0] == [];
  }

  /** One packet from section r of node b to section i of node a, which is section x, while y is not r. */
  lemma LeaksToA(w: World, r: nat, e: Links.Link, clock: U64, packet: seq<Byte>, d: Datagram, u: World, v: World)
    requires InRange(w) && r < |w.nb.peers| && r != w.y && Links.LinkInv(e, clock) && e.i.phase == Established
    requires w.na.peers[w.x].session == e.i && w.nb.peers[r].session == e.r
    requires OwnAddresses(w.na) && w.na.peers[w.x].resolved && w.na.tunOut == [] && w.nb.tunIn == []
    requires Routing.RoutePacket(w.nb.table, packet) == Some(r)
    requires 0 < |packet| <= MAX_PACKET_SIZE && SealData(e.r, packet, SEALED_BUF_SIZE).reply == Sent(d)
    requires u == EndToEnd.Next(w, AtB(FromTun(packet, 0, true)))
    requires v == EndToEnd.Next(u, ToA(Endpoint(w.x, 0), d))
    ensures !Conserved(v)
  {
    Links.EstablishedCarriesData(e, clock, packet);
    PacketSealed(w.nb, r, packet, d, u.nb);
    Reconnect.EmittedIsObtainable(u, u.nb, r, d);
    PacketWritten(u.na, w.x, packet, d, Endpoint(w.x, 0), v.na);
    assert packet in Written(v.na.tunOut, w.x);
  }

  /** One packet from section i of node a, which is not x, to section y of node b. */
  lemma LeaksToB(w: World, i: nat, from: Endpoint, e: Links.Link, clock: U64, packet: seq<Byte>, d: Datagram, u: World,
                 v: World)
    requires InRange(w) && i < |w.na.peers| && i != w.x && Links.LinkInv(e, clock) && e.i.phase == Established
    requires w.na.peers[i].session == e.i && w.nb.peers[w.y].session == e.r
    requires FindByAddr(w.nb.peers, from, 0) == Some(w.y) && w.nb.tunOut == [] && w.na.tunIn == []
    requires Routing.RoutePacket(w.na.table, packet) == Some(i)
    requires 0 < |packet| <= MAX_PACKET_SIZE && SealData(e.i, packet, SEALED_BUF_SIZE).reply == Sent(d)
    requires u == EndToEnd.Next(w, AtA(FromTun(packet, 0, true)))
    requires v == EndToEnd.Next(u, ToB(from, d))
    ensures !Conserved(v)
  {
    Links.EstablishedCarriesData(e, clock, packet);
    PacketSealed(w.na, i, packet, d, u.na);
    Reconnect.EmittedIsObtainable(u, u.na, i, d);
    PacketWritten(u.nb, w.y, packet, d, from, v.nb);
    assert packet in Written(v.nb.tunOut, w.y);
  }

  // ---------------------------------------------------------------- from the start

  const STRANGER: Endpoint := Endpoint(0, 1)
  const ANOTHER: Endpoint := Endpoint(0, 2)

  ghost predicate Silent(n: Node) {
    n.tunIn == [] && n.tunOut == []
  }

  lemma StartAddresses(p: Pair, late: nat, routeA: nat, routeB: nat, w: World)
    requires Joined(p) && w == StartOf(p, late, routeA, routeB)
    ensures InRange(w) && |w.na.peers| == |p.sa| && |w.nb.peers| == |p.sb| && Silent(w.na) && Silent(w.nb)
    ensures OwnAddresses(w.na) && forall k | 0 <= k < |p.sa| && p.sa[k].role == Initiator :: w.na.peers[k].resolved
    ensures forall from :: FindByAddr(w.nb.peers, from, 0).None?
  {
    assert forall k | 0 <= k < |p.sa| :: w.na.peers[k] == BootPeer(p.a, StartA(p.sa, late)[k]);
    assert forall k | 0 <= k < |p.sb| :: w.nb.peers[k] == BootPeer(p.b, StartB(p.sb, |p.sa|)[k]);
  }

  lemma StartsMeet(p: Pair, late: nat, routeA: nat, routeB: nat, w: World, i: nat, r: nat, clock: U64)
    returns (e: Links.Link)
    requires Joined(p) && w == StartOf(p, late, routeA, routeB) && Matching(p, i, r)
    requires clock == if i == late then 1 else 0
    ensures Met(e, i, |p.sa| + r, clock) && e.a == p.a && e.b == p.b
    ensures Meet(p, w.na.peers[i].session, w.nb.peers[r].session, i, clock, e)
  {
    var u, v := StartA(p.sa, late)[i], StartB(p.sb, |p.sa|)[r];
    assert w.na.peers[i] == BootPeer(p.a, u) && w.nb.peers[r] == BootPeer(p.b, v);
    var l := Links.Open(p.a, p.b, i, |p.sa| + r, clock, 0);
    e := Links.Handshake(l);
    Meeting(p, i, r, u, v, l, e);
  }

  lemma OtherRefuses(p: Pair, late: nat, routeA: nat, routeB: nat, w: World, j: nat, i: nat, clock: U64)
    requires Joined(p) && w == StartOf(p, late, routeA, routeB) && j < |p.sb| && p.sb[j] != p.sb[p.y]
    ensures !InitAccepted(w.nb.peers[j].session, FirstInit(p, i, clock), HANDSHAKE_MSG_LEN)
  {
    var v := StartB(p.sb, |p.sa|)[j];
    assert w.nb.peers[j] == BootPeer(p.b, v);
    Duplicates.BootRole(p.b, v);
    if v.role == Responder {
      Duplicates.BootWaits(p.b, v);
      Duplicates.OthersRefuse(w.nb.peers[j].session, p.b, v, PublicOf(Static(p.a)), clock, PublicOf(Ephemeral(i, 1)));
    }
  }

  lemma ReplayedInitRefused(s: Session, d: Datagram)
    requires HandleInit(s, d, HANDSHAKE_MSG_LEN).reply.Sent?
    ensures !InitAccepted(HandleInit(s, d, HANDSHAKE_MSG_LEN).s, d, HANDSHAKE_MSG_LEN)
  {
  }

  // ---------------------------------------------------------------- another responder section

  /** Sections j and k of node b are the first two that answer node a. */
  ghost predicate FirstTwo(p: Pair, j: nat, k: nat)
    requires Joined(p)
  {
    j < k < |p.sb| && p.sb[j] == p.sb[k] == p.sb[p.y] && forall i | 0 <= i < k && i != j :: p.sb[i] != p.sb[p.y]
  }

  lemma FindFirstTwo(p: Pair, z: nat) returns (j: nat, k: nat)
    requires Joined(p) && z < |p.sb| && z != p.y && p.sb[z] == p.sb[p.y]
    ensures FirstTwo(p, j, k)
  {
    var us, peer := StartB(p.sb, |p.sa|), PublicOf(Static(p.a));
    j, k := Duplicates.FindFirstTwo(us, peer, if z < p.y then z else p.y, if z < p.y then p.y else z);
    assert forall i | 0 <= i < |p.sb| :: Duplicates.ResponderFor(us[i], peer) <==> p.sb[i] == p.sb[p.y];
  }

  /** An INIT delivered from two unknown addresses, when nobody but j and k would take it before k. */
  lemma DeliveredTwice(w: World, x: nat, j: nat, k: nat, init: Datagram, u: World, v: World)
    requires InRange(w) && x < |w.na.peers| && j < k < |w.nb.peers| && init in w.na.peers[x].session.hist.sealed
    requires init.Datagram? && init.kind == HANDSHAKE_INIT
    requires FindByAddr(w.nb.peers, STRANGER, 0).None? && FindByAddr(w.nb.peers, ANOTHER, 0).None?
    requires w.nb.peers[j].session.role == w.nb.peers[k].session.role == Responder
    requires HandleInit(w.nb.peers[j].session, init, HANDSHAKE_MSG_LEN).reply.Sent?
    requires HandleInit(w.nb.peers[k].session, init, HANDSHAKE_MSG_LEN).reply.Sent?
    requires forall i | 0 <= i < k && i != j && w.nb.peers[i].session.role == Responder ::
               !InitAccepted(w.nb.peers[i].session, init, HANDSHAKE_MSG_LEN)
    requires u == EndToEnd.Next(w, ToB(STRANGER, init))
    requires v == EndToEnd.Next(u, ToB(ANOTHER, init))
    ensures v == w.(nb := v.nb) && v.nb.table == w.nb.table && |v.nb.peers| == |w.nb.peers|
    ensures v.nb.tunIn == w.nb.tunIn && v.nb.tunOut == w.nb.tunOut
    ensures v.nb.peers[j].session == HandleInit(w.nb.peers[j].session, init, HANDSHAKE_MSG_LEN).s
    ensures v.nb.peers[k].session == HandleInit(w.nb.peers[k].session, init, HANDSHAKE_MSG_LEN).s
    ensures forall i | 0 <= i < |w.nb.peers| && i != j && i != k :: v.nb.peers[i] == w.nb.peers[i]
  {
    InitReaches(w, x, j, init, STRANGER, u);
    ReplayedInitRefused(w.nb.peers[j].session, init);
    Duplicates.Unknown(w.nb, u.nb, j, STRANGER, ANOTHER);
    InitReaches(u, x, k, init, ANOTHER, v);
  }

  /** Sections j and k of node b have answered the first INIT of section x, and nothing else has changed. */
  ghost predicate BothAnswered(w: World, v: World, j: nat, k: nat, e: Links.Link, f: Links.Link) {
    && InRange(w) && v == w.(nb := v.nb) && v.nb.table == w.nb.table && Silent(v.nb)
    && |v.nb.peers| == |w.nb.peers| && j < |v.nb.peers| && k < |v.nb.peers|
    && v.nb.peers[j].session == e.r && v.nb.peers[k].session == f.r
    && forall i | 0 <= i < |w.nb.peers| && i != j && i != k :: v.nb.peers[i] == w.nb.peers[i]
  }

  lemma BothAnswer(p: Pair, j: nat, k: nat, route: nat, w: World, u: World, v: World, e: Links.Link, f: Links.Link)
    requires Joined(p) && FirstTwo(p, j, k) && w == StartOf(p, |p.sa|, 0, route) && InRange(w)
    requires |w.nb.peers| == |p.sb|
    requires Meet(p, w.na.peers[p.x].session, w.nb.peers[j].session, p.x, 0, e)
    requires Meet(p, w.na.peers[p.x].session, w.nb.peers[k].session, p.x, 0, f)
    requires u == EndToEnd.Next(w, ToB(STRANGER, FirstInit(p, p.x, 0)))
    requires v == EndToEnd.Next(u, ToB(ANOTHER, FirstInit(p, p.x, 0)))
    ensures BothAnswered(w, v, j, k, e, f)
  {
    var init := FirstInit(p, p.x, 0);
    StartAddresses(p, |p.sa|, 0, route, w);
    forall i | 0 <= i < k && i != j ensures !InitAccepted(w.nb.peers[i].session, init, HANDSHAKE_MSG_LEN) {
      OtherRefuses(p, |p.sa|, 0, route, w, i, p.x, 0);
    }
    DeliveredTwice(w, p.x, j, k, init, u, v);
  }

  lemma KeysApart(e: Links.Link, f: Links.Link, i: nat, r: nat, t: nat, clock: U64)
    requires Met(e, i, r, clock) && Met(f, i, t, clock) && r != t
    ensures !Mirrored(e.i.dataKeys, f.r.dataKeys)
  {
    assert e.r.ephPk != f.r.ephPk;
  }

  /** Section i of node a and section r of node b have met; node a is otherwise as it started. */
  ghost predicate HaveMet(p: Pair, v: World, i: nat, r: nat, e: Links.Link) {
    && InRange(v) && v.x == p.x && v.y == p.y && i < |v.na.peers| && r < |v.nb.peers|
    && v.na.peers[i].session == e.i && v.nb.peers[r].session == e.r
    && OwnAddresses(v.na) && v.na.peers[i].resolved && Silent(v.na) && Silent(v.nb)
  }

  lemma AnswerTaken(p: Pair, i: nat, r: nat, clock: U64, e: Links.Link, w: World, t: Session, u: World, v: World)
    requires InRange(w) && w.x == p.x && w.y == p.y && i < |w.na.peers| && r < |w.nb.peers|
    requires OwnAddresses(w.na) && w.na.peers[i].resolved && Silent(w.na)
    requires Meet(p, w.na.peers[i].session, t, i, clock, e)
    requires u == w.(nb := u.nb) && |u.nb.peers| == |w.nb.peers| && Silent(u.nb) && u.nb.peers[r].session == e.r
    requires v == EndToEnd.Next(u, ToA(Endpoint(i, 0), Links.Last(e.r.hist.sealed)))
    ensures HaveMet(p, v, i, r, e) && v.nb == u.nb && Untouched(w.na, v.na, i)
  {
    AnswerReaches(u, i, r, e, Links.Last(e.r.hist.sealed), v);
  }

  ghost predicate AlwaysAgreed(p: Pair)
    requires Joined(p)
  {
    forall c | Possible(p, c) :: Agreed(EndToEnd.Run(c.w, c.hs))
  }

  ghost predicate AlwaysConserved(p: Pair)
    requires Joined(p)
  {
    forall c | Possible(p, c) :: Conserved(EndToEnd.Run(c.w, c.hs))
  }

  lemma NotAgreed(p: Pair, v: World, z: nat, e: Links.Link, f: Links.Link)
    requires HaveMet(p, v, p.x, z, e) && Met(e, p.x, |p.sa| + z, 0) && z != p.y
    requires v.nb.peers[p.y].session.phase == Pending
        || (v.nb.peers[p.y].session == f.r && Met(f, p.x, |p.sa| + p.y, 0))
    ensures !Agreed(v)
  {
    if v.nb.peers[p.y].session.phase != Pending {
      KeysApart(e, f, p.x, |p.sa| + z, |p.sa| + p.y, 0);
    }
  }

  lemma RunsTo(w: World, h: seq<Happening>, a: World, b: World, c: World)
    requires InRange(w) && |h| == 3 && a == EndToEnd.Next(w, h[0]) && b == EndToEnd.Next(a, h[1])
    requires c == EndToEnd.Next(b, h[2])
    ensures EndToEnd.Run(w, h) == c
  {
    RunExtends(w, [], h[0], [h[0]], w, a);
    RunExtends(w, [h[0]], h[1], [h[0], h[1]], a, b);
    RunExtends(w, [h[0], h[1]], h[2], h, b, c);
  }

  lemma RunsOn(w: World, hs: seq<Happening>, g: Happening, h: Happening, all: seq<Happening>, a: World, b: World,
               c: World)
    requires InRange(w) && a == EndToEnd.Run(w, hs) && b == EndToEnd.Next(a, g) && c == EndToEnd.Next(b, h)
    requires all == hs + [g] + [h]
    ensures EndToEnd.Run(w, all) == c
  {
    RunExtends(w, hs, g, hs + [g], a, b);
    RunExtends(w, hs + [g], h, all, b, c);
  }

  /** What section y has made of the INIT, if anything. */
  lemma NotByY(p: Pair, j: nat, k: nat, z: nat, w: World, b: World, v: World, e: Links.Link, f: Links.Link,
               g: Links.Link)
    requires j != k && z == (if j != p.y then j else k) && Met(g, p.x, |p.sa| + z, 0)
    requires BothAnswered(w, b, j, k, e, f) && v.nb == b.nb && HaveMet(p, v, p.x, z, g) && p.y < |w.nb.peers|
    requires w.nb.peers[p.y].session.phase == Pending && Met(e, p.x, |p.sa| + j, 0) && Met(f, p.x, |p.sa| + k, 0)
    ensures !Agreed(v)
  {
    NotAgreed(p, v, z, g, if p.y == j then e else f);
  }

  lemma WrongAnswerTaken(p: Pair, j: nat, k: nat, z: nat, w: World, b: World, c: World,
                         e: Links.Link, f: Links.Link, g: Links.Link)
    requires BothAnswered(w, b, j, k, e, f) && OwnAddresses(w.na) && w.x == p.x && w.y == p.y
    requires w.na.peers[p.x].resolved && Silent(w.na) && z < |w.nb.peers| && b.nb.peers[z].session == g.r
    requires Meet(p, w.na.peers[p.x].session, w.nb.peers[z].session, p.x, 0, g)
    requires c == EndToEnd.Next(b, ToA(Endpoint(p.x, 0), Links.Last(g.r.hist.sealed)))
    ensures HaveMet(p, c, p.x, z, g) && c.nb == b.nb
  {
    AnswerTaken(p, p.x, z, 0, g, w, w.nb.peers[z].session, b, c);
  }

  lemma StartsPending(p: Pair, late: nat, routeA: nat, routeB: nat, w: World)
    requires Joined(p) && w == StartOf(p, late, routeA, routeB)
    ensures w.nb.peers[p.y].session.phase == Pending
  {
    assert w.nb.peers[p.y] == BootPeer(p.b, StartB(p.sb, |p.sa|)[p.y]);
  }

  /** The first INIT of section x reaches two responders, and the answer of section z is taken. */
  lemma WrongRun(p: Pair, j: nat, k: nat, z: nat, w: World, a: World, b: World, c: World,
                 e: Links.Link, f: Links.Link, g: Links.Link)
    requires Joined(p) && FirstTwo(p, j, k) && z == (if j != p.y then j else k) && g == (if j != p.y then e else f)
    requires w == StartOf(p, |p.sa|, 0, z) && InRange(w) && |w.nb.peers| == |p.sb| && w.x == p.x && w.y == p.y
    requires Met(e, p.x, |p.sa| + j, 0) && Meet(p, w.na.peers[p.x].session, w.nb.peers[j].session, p.x, 0, e)
    requires Met(f, p.x, |p.sa| + k, 0) && Meet(p, w.na.peers[p.x].session, w.nb.peers[k].session, p.x, 0, f)
    requires a == EndToEnd.Next(w, ToB(STRANGER, FirstInit(p, p.x, 0)))
    requires b == EndToEnd.Next(a, ToB(ANOTHER, FirstInit(p, p.x, 0)))
    requires c == EndToEnd.Next(b, ToA(Endpoint(p.x, 0), Links.Last(g.r.hist.sealed)))
    ensures HaveMet(p, c, p.x, z, g) && c.nb.table == w.nb.table && !Agreed(c)
  {
    StartAddresses(p, |p.sa|, 0, z, w);
    StartsPending(p, |p.sa|, 0, z, w);
    BothAnswer(p, j, k, z, w, a, b, e, f);
    WrongAnswerTaken(p, j, k, z, w, b, c, e, f, g);
    NotByY(p, j, k, z, w, b, c, e, f, g);
  }

  lemma AgreementRefuted(p: Pair, late: nat, routeA: nat, routeB: nat, w: World, hs: seq<Happening>, v: World)
    requires Joined(p) && w == StartOf(p, late, routeA, routeB) && |hs| <= 7 && InRange(w)
    requires Instant(hs) && v == EndToEnd.Run(w, hs) && !Agreed(v)
    ensures !AlwaysAgreed(p)
  {
    CourseIsPossible(p, late, routeA, routeB, hs);
    var c := CourseOf(p, late, routeA, routeB, hs);
    assert Possible(p, c) && !Agreed(EndToEnd.Run(c.w, c.hs));
  }

  lemma ConservationRefuted(p: Pair, late: nat, routeA: nat, routeB: nat, w: World, hs: seq<Happening>, v: World)
    requires Joined(p) && w == StartOf(p, late, routeA, routeB) && |hs| <= 7 && InRange(w)
    requires Instant(hs) && v == EndToEnd.Run(w, hs) && !Conserved(v)
    ensures !AlwaysConserved(p)
  {
    CourseIsPossible(p, late, routeA, routeB, hs);
    var c := CourseOf(p, late, routeA, routeB, hs);
    assert Possible(p, c) && !Conserved(EndToEnd.Run(c.w, c.hs));
  }

  /** Sections j and k of node b are the first two that answer node a, and z is one of them that is not y. */
  ghost predicate TwoResponders(p: Pair, j: nat, k: nat, z: nat, w: World, e: Links.Link, f: Links.Link,
                                g: Links.Link) {
    && Joined(p) && FirstTwo(p, j, k) && z == (if j != p.y then j else k) && g == (if j != p.y then e else f)
    && w == StartOf(p, |p.sa|, 0, z) && InRange(w) && |w.nb.peers| == |p.sb| && w.x == p.x && w.y == p.y
    && Met(e, p.x, |p.sa| + j, 0) && Meet(p, w.na.peers[p.x].session, w.nb.peers[j].session, p.x, 0, e)
    && Met(f, p.x, |p.sa| + k, 0) && Meet(p, w.na.peers[p.x].session, w.nb.peers[k].session, p.x, 0, f)
  }

  function WrongAnswer(p: Pair, answer: Datagram): seq<Happening> {
    [ToB(STRANGER, FirstInit(p, p.x, 0)), ToB(ANOTHER, FirstInit(p, p.x, 0)), ToA(Endpoint(p.x, 0), answer)]
  }

  lemma WrongAnswerRun(p: Pair, j: nat, k: nat, z: nat, w: World, e: Links.Link, f: Links.Link, g: Links.Link,
                       hs: seq<Happening>, c: World)
    requires TwoResponders(p, j, k, z, w, e, f, g) && g.r.hist.sealed != []
    requires hs == WrongAnswer(p, Links.Last(g.r.hist.sealed)) && c == EndToEnd.Run(w, hs)
    ensures HaveMet(p, c, p.x, z, g) && c.nb.table == w.nb.table && !Agreed(c)
  {
    var a := EndToEnd.Next(w, hs[0]);
    var b := EndToEnd.Next(a, hs[1]);
    RunsTo(w, hs, a, b, EndToEnd.Next(b, hs[2]));
    WrongRun(p, j, k, z, w, a, b, c, e, f, g);
  }

  /** The packet read by node b for section z, and delivered to section x. */
  lemma WrongPacketRun(p: Pair, z: nat, g: Links.Link, w: World, hs: seq<Happening>, c: World, d: Datagram,
                       all: seq<Happening>, v: World)
    requires InRange(w) && c == EndToEnd.Run(w, hs) && HaveMet(p, c, p.x, z, g) && z != p.y
    requires Met(g, p.x, |p.sa| + z, 0) && Routing.RoutePacket(c.nb.table, PACKET) == Some(z)
    requires SealData(g.r, PACKET, SEALED_BUF_SIZE).reply == Sent(d)
    requires all == hs + [AtB(FromTun(PACKET, 0, true))] + [ToA(Endpoint(p.x, 0), d)] && v == EndToEnd.Run(w, all)
    ensures !Conserved(v)
  {
    var u := EndToEnd.Next(c, AtB(FromTun(PACKET, 0, true)));
    var t := EndToEnd.Next(u, ToA(Endpoint(p.x, 0), d));
    RunsOn(w, hs, AtB(FromTun(PACKET, 0, true)), ToA(Endpoint(p.x, 0), d), all, c, u, t);
    LeaksToA(c, z, g, 0, PACKET, d, u, t);
  }

  lemma MetSeals(e: Links.Link, i: nat, r: nat, clock: U64)
    requires Met(e, i, r, clock)
    ensures SealData(e.i, PACKET, SEALED_BUF_SIZE).reply.Sent? && SealData(e.r, PACKET, SEALED_BUF_SIZE).reply.Sent?
  {
  }

  lemma StartRoutes(p: Pair, late: nat, routeA: nat, routeB: nat, w: World)
    requires Joined(p) && w == StartOf(p, late, routeA, routeB)
    ensures routeA < |p.sa| ==> Routing.RoutePacket(w.na.table, PACKET) == Some(routeA)
    ensures routeB < |p.sb| ==> Routing.RoutePacket(w.nb.table, PACKET) == Some(routeB)
  {
    if routeA < |p.sa| {
      PacketTakesRoute(|p.sa|, routeA);
    }
    if routeB < |p.sb| {
      PacketTakesRoute(|p.sb|, routeB);
    }
  }

  lemma InstantTwoMore(hs: seq<Happening>, g: Happening, h: Happening, all: seq<Happening>)
    requires Instant(hs) && TimeOf(g.e) == TimeOf(h.e) == 0 && all == hs + [g] + [h]
    ensures Instant(all)
  {
  }

  lemma WrongAnswerLeaks(p: Pair, z: nat, g: Links.Link, w: World, hs: seq<Happening>, c: World, d: Datagram,
                         all: seq<Happening>, v: World)
    requires Joined(p) && w == StartOf(p, |p.sa|, 0, z) && InRange(w) && |hs| == 3 && c == EndToEnd.Run(w, hs)
    requires Instant(hs) && HaveMet(p, c, p.x, z, g) && z != p.y && z < |p.sb| && Met(g, p.x, |p.sa| + z, 0)
    requires Routing.RoutePacket(c.nb.table, PACKET) == Some(z)
    requires SealData(g.r, PACKET, SEALED_BUF_SIZE).reply == Sent(d)
    requires all == hs + [AtB(FromTun(PACKET, 0, true))] + [ToA(Endpoint(p.x, 0), d)] && v == EndToEnd.Run(w, all)
    ensures !AlwaysConserved(p)
  {
    InstantTwoMore(hs, AtB(FromTun(PACKET, 0, true)), ToA(Endpoint(p.x, 0), d), all);
    WrongPacketRun(p, z, g, w, hs, c, d, all, v);
    ConservationRefuted(p, |p.sa|, 0, z, w, all, v);
  }

  lemma WrongAnswerInstant(p: Pair, answer: Datagram)
    ensures |WrongAnswer(p, answer)| == 3 && Instant(WrongAnswer(p, answer))
  {
  }

  lemma TakeWrongAnswer(p: Pair, j: nat, k: nat, z: nat, w: World, e: Links.Link, f: Links.Link, g: Links.Link)
    returns (hs: seq<Happening>, c: World)
    requires TwoResponders(p, j, k, z, w, e, f, g) && g.r.hist.sealed != []
    ensures |hs| == 3 && Instant(hs) && c == EndToEnd.Run(w, hs)
    ensures HaveMet(p, c, p.x, z, g) && c.nb.table == w.nb.table && !Agreed(c)
  {
    hs := WrongAnswer(p, Links.Last(g.r.hist.sealed));
    c := EndToEnd.Run(w, hs);
    WrongAnswerInstant(p, Links.Last(g.r.hist.sealed));
    WrongAnswerRun(p, j, k, z, w, e, f, g, hs, c);
  }

  lemma LeakWrongPacket(p: Pair, z: nat, g: Links.Link, w: World, hs: seq<Happening>, c: World)
    requires Joined(p) && w == StartOf(p, |p.sa|, 0, z) && InRange(w) && |hs| == 3 && c == EndToEnd.Run(w, hs)
    requires Instant(hs) && HaveMet(p, c, p.x, z, g) && z != p.y && z < |p.sb| && Met(g, p.x, |p.sa| + z, 0)
    requires Routing.RoutePacket(c.nb.table, PACKET) == Some(z)
    ensures !AlwaysConserved(p)
  {
    MetSeals(g, p.x, |p.sa| + z, 0);
    var d := SealData(g.r, PACKET, SEALED_BUF_SIZE).reply.msg;
    var all := hs + [AtB(FromTun(PACKET, 0, true))] + [ToA(Endpoint(p.x, 0), d)];
    WrongAnswerLeaks(p, z, g, w, hs, c, d, all, EndToEnd.Run(w, all));
  }

  lemma TwoRespondersRefute(p: Pair, j: nat, k: nat, z: nat, w: World, e: Links.Link, f: Links.Link, g: Links.Link)
    requires TwoResponders(p, j, k, z, w, e, f, g) && g.r.hist.sealed != []
    ensures !AlwaysAgreed(p) && !AlwaysConserved(p)
  {
    var hs, c := TakeWrongAnswer(p, j, k, z, w, e, f, g);
    AgreementRefuted(p, |p.sa|, 0, z, w, hs, c);
    StartRoutes(p, |p.sa|, 0, z, w);
    LeakWrongPacket(p, z, g, w, hs, c);
  }

  /** Another responder section of node b for node a breaks both promises. */
  lemma AnotherResponder(p: Pair, another: nat)
    requires Joined(p) && another < |p.sb| && another != p.y && p.sb[another] == p.sb[p.y]
    ensures !AlwaysAgreed(p) && !AlwaysConserved(p)
  {
    var j, k := FindFirstTwo(p, another);
    var z := if j != p.y then j else k;
    var w := StartOf(p, |p.sa|, 0, z);
    StartAddresses(p, |p.sa|, 0, z, w);
    var e := StartsMeet(p, |p.sa|, 0, z, w, p.x, j, 0);
    var f := StartsMeet(p, |p.sa|, 0, z, w, p.x, k, 0);
    var g := if j != p.y then e else f;
    TwoRespondersRefute(p, j, k, z, w, e, f, g);
  }

  // ---------------------------------------------------------------- another initiator section

  ghost predicate OnlyResponder(p: Pair)
    requires Joined(p)
  {
    forall k | 0 <= k < |p.sb| && k != p.y :: p.sb[k] != p.sb[p.y]
  }

  /** Section i of node a has met section y of node b, from an address that leads there. */
  ghost predicate MetY(p: Pair, w: World, c: World, i: nat, e: Links.Link) {
    && HaveMet(p, c, i, p.y, e) && Untouched(w.na, c.na, i)
    && FindByAddr(c.nb.peers, STRANGER, 0) == Some(p.y)
  }

  lemma FirstInitReaches(p: Pair, late: nat, routeA: nat, w: World, i: nat, clock: U64, e: Links.Link, u: World)
    requires Joined(p) && OnlyResponder(p) && w == StartOf(p, late, routeA, 0) && InRange(w) && i < |w.na.peers|
    requires |w.nb.peers| == |p.sb| && Meet(p, w.na.peers[i].session, w.nb.peers[p.y].session, i, clock, e)
    requires u == EndToEnd.Next(w, ToB(STRANGER, FirstInit(p, i, clock)))
    ensures u == w.(nb := u.nb) && |u.nb.peers| == |w.nb.peers| && Silent(u.nb) && u.nb.peers[p.y].session == e.r
    ensures FindByAddr(u.nb.peers, STRANGER, 0) == Some(p.y)
  {
    StartAddresses(p, late, routeA, 0, w);
    forall j | 0 <= j < p.y ensures !InitAccepted(w.nb.peers[j].session, FirstInit(p, i, clock), HANDSHAKE_MSG_LEN) {
      OtherRefuses(p, late, routeA, 0, w, j, i, clock);
    }
    InitReaches(w, i, p.y, FirstInit(p, i, clock), STRANGER, u);
    LearnedThere(w.nb, u.nb, p.y, STRANGER);
  }

  lemma LearnedThere(n: Node, m: Node, k: nat, from: Endpoint)
    requires Untouched(n, m, k) && FindByAddr(n.peers, from, 0).None? && m.peers[k].resolved && m.peers[k].addr == from
    ensures FindByAddr(m.peers, from, 0) == Some(k)
  {
    assert forall j | 0 <= j < |m.peers| && j != k :: !(m.peers[j].resolved && m.peers[j].addr == from);
  }

  lemma MeetY(p: Pair, late: nat, routeA: nat, w: World, i: nat, clock: U64, e: Links.Link)
    returns (hs: seq<Happening>, c: World)
    requires Joined(p) && OnlyResponder(p) && w == StartOf(p, late, routeA, 0) && InRange(w) && |w.nb.peers| == |p.sb|
    requires i < |w.na.peers| && Meet(p, w.na.peers[i].session, w.nb.peers[p.y].session, i, clock, e)
    requires w.x == p.x && w.y == p.y && OwnAddresses(w.na) && w.na.peers[i].resolved && Silent(w.na)
    ensures |hs| == 2 && Instant(hs) && c == EndToEnd.Run(w, hs) && MetY(p, w, c, i, e)
  {
    var g, h := ToB(STRANGER, FirstInit(p, i, clock)), ToA(Endpoint(i, 0), Links.Last(e.r.hist.sealed));
    var u := EndToEnd.Next(w, g);
    c := EndToEnd.Next(u, h);
    FirstInitReaches(p, late, routeA, w, i, clock, e, u);
    AnswerTaken(p, i, p.y, clock, e, w, w.nb.peers[p.y].session, u, c);
    hs := [] + [g] + [h];
    InstantTwoMore([], g, h, hs);
    RunsOn(w, [], g, h, hs, w, u, c);
  }

  /** Established under one initiator of node a, section y takes a later INIT of another. */
  lemma Overtaken(p: Pair, e: Links.Link, q: nat)
    requires Met(e, p.x, |p.sa| + p.y, 0) && e.a == p.a && e.b == p.b
    ensures HandleInit(e.r, FirstInit(p, q, 1), HANDSHAKE_MSG_LEN).s.highestSeen == 1
  {
    assert {Static(p.a), Static(p.b)} == {Static(p.b), Static(p.a)};
  }

  lemma OvertakenDisagrees(p: Pair, w: World, c: World, q: nat, e: Links.Link, v: World)
    requires InRange(w) && MetY(p, w, c, p.x, e) && Met(e, p.x, |p.sa| + p.y, 0) && e.a == p.a && e.b == p.b
    requires q < |w.na.peers| && q != p.x && FirstInit(p, q, 1) in w.na.peers[q].session.hist.sealed
    requires v == EndToEnd.Next(c, ToB(STRANGER, FirstInit(p, q, 1)))
    ensures !Agreed(v)
  {
    Reconnect.EmittedIsObtainable(c, c.na, q, FirstInit(p, q, 1));
    Overtaken(p, e, q);
    assert v.nb.peers[p.y].session == HandleInit(e.r, FirstInit(p, q, 1), HANDSHAKE_MSG_LEN).s;
  }

  lemma InstantOneMore(hs: seq<Happening>, h: Happening, all: seq<Happening>)
    requires Instant(hs) && TimeOf(h.e) == 0 && all == hs + [h]
    ensures Instant(all)
  {
  }

  lemma OvertakingRefutes(p: Pair, w: World, q: nat, e: Links.Link, hs: seq<Happening>, c: World, h: Happening,
                          v: World)
    requires Joined(p) && w == StartOf(p, q, 0, 0) && InRange(w) && |hs| == 2 && Instant(hs) && c == EndToEnd.Run(w, hs)
    requires MetY(p, w, c, p.x, e) && Met(e, p.x, |p.sa| + p.y, 0) && e.a == p.a && e.b == p.b
    requires q < |w.na.peers| && q != p.x && FirstInit(p, q, 1) in w.na.peers[q].session.hist.sealed
    requires h == ToB(STRANGER, FirstInit(p, q, 1)) && v == EndToEnd.Next(c, h)
    ensures !AlwaysAgreed(p)
  {
    var all := hs + [h];
    OvertakenDisagrees(p, w, c, q, e, v);
    InstantOneMore(hs, h, all);
    RunExtends(w, hs, h, all, c, v);
    AgreementRefuted(p, q, 0, 0, w, all, v);
  }

  /** Another initiator section of node a for node b breaks the agreement: its later INIT takes section y over. */
  lemma InitiatorOvertakes(p: Pair, q: nat)
    requires Joined(p) && OnlyResponder(p) && q < |p.sa| && q != p.x && p.sa[q] == p.sa[p.x]
    ensures !AlwaysAgreed(p)
  {
    var w := StartOf(p, q, 0, 0);
    StartAddresses(p, q, 0, 0, w);
    var e := StartsMeet(p, q, 0, 0, w, p.x, p.y, 0);
    var f := StartsMeet(p, q, 0, 0, w, q, p.y, 1);
    var hs, c := MeetY(p, q, 0, w, p.x, 0, e);
    var h := ToB(STRANGER, FirstInit(p, q, 1));
    OvertakingRefutes(p, w, q, e, hs, c, h, EndToEnd.Next(c, h));
  }

  /** The packet read by node a for section q, and delivered to section y. */
  lemma StrayPacketRefutes(p: Pair, w: World, q: nat, e: Links.Link, hs: seq<Happening>, c: World, d: Datagram,
                           all: seq<Happening>, v: World)
    requires Joined(p) && w == StartOf(p, |p.sa|, q, 0) && InRange(w) && |hs| == 2 && Instant(hs)
    requires c == EndToEnd.Run(w, hs)
    requires MetY(p, w, c, q, e) && Met(e, q, |p.sa| + p.y, 0) && q < |p.sa| && q != p.x
    requires Routing.RoutePacket(c.na.table, PACKET) == Some(q)
    requires SealData(e.i, PACKET, SEALED_BUF_SIZE).reply == Sent(d)
    requires all == hs + [AtA(FromTun(PACKET, 0, true))] + [ToB(STRANGER, d)] && v == EndToEnd.Run(w, all)
    ensures !AlwaysConserved(p)
  {
    var g, h := AtA(FromTun(PACKET, 0, true)), ToB(STRANGER, d);
    var u := EndToEnd.Next(c, g);
    InstantTwoMore(hs, g, h, all);
    RunsOn(w, hs, g, h, all, c, u, EndToEnd.Next(u, h));
    LeaksToB(c, q, STRANGER, e, 0, PACKET, d, u, v);
    ConservationRefuted(p, |p.sa|, q, 0, w, all, v);
  }

  lemma LeakStrayPacket(p: Pair, w: World, q: nat, e: Links.Link, hs: seq<Happening>, c: World)
    requires Joined(p) && w == StartOf(p, |p.sa|, q, 0) && InRange(w) && |hs| == 2 && Instant(hs)
    requires c == EndToEnd.Run(w, hs)
    requires MetY(p, w, c, q, e) && Met(e, q, |p.sa| + p.y, 0) && q < |p.sa| && q != p.x
    requires Routing.RoutePacket(c.na.table, PACKET) == Some(q)
    ensures !AlwaysConserved(p)
  {
    MetSeals(e, q, |p.sa| + p.y, 0);
    var d := SealData(e.i, PACKET, SEALED_BUF_SIZE).reply.msg;
    var all := hs + [AtA(FromTun(PACKET, 0, true))] + [ToB(STRANGER, d)];
    StrayPacketRefutes(p, w, q, e, hs, c, d, all, EndToEnd.Run(w, all));
  }

  /** It breaks the conservation of packets too: section y writes what was read for the other section. */
  lemma InitiatorLeaks(p: Pair, q: nat)
    requires Joined(p) && OnlyResponder(p) && q < |p.sa| && q != p.x && p.sa[q] == p.sa[p.x]
    ensures !AlwaysConserved(p)
  {
    var w := StartOf(p, |p.sa|, q, 0);
    StartAddresses(p, |p.sa|, q, 0, w);
    StartRoutes(p, |p.sa|, q, 0, w);
    var e := StartsMeet(p, |p.sa|, q, 0, w, q, p.y, 0);
    var hs, c := MeetY(p, |p.sa|, q, w, q, 0, e);
    LeakStrayPacket(p, w, q, e, hs, c);
  }

  // ---------------------------------------------------------------- exactly when

  lemma BrokenOtherwise(p: Pair)
    requires Joined(p) && !OnlyPair(p)
    ensures !AlwaysAgreed(p) && !AlwaysConserved(p)
  {
    if OnlyResponder(p) {
      var q :| 0 <= q < |p.sa| && q != p.x && p.sa[q] == p.sa[p.x];
      InitiatorOvertakes(p, q);
      InitiatorLeaks(p, q);
    } else {
      var z :| 0 <= z < |p.sb| && z != p.y && p.sb[z] == p.sb[p.y];
      AnotherResponder(p, z);
    }
  }

  /** The two ends agree after every run of the two daemons, however they start, if and only if no other
      initiator section of the one names the other's key and no other responder section of the other names its. */
  lemma AgreementIff(p: Pair)
    requires Joined(p)
    ensures AlwaysAgreed(p) <==> OnlyPair(p)
  {
    if OnlyPair(p) {
      forall c | Possible(p, c) ensures Agreed(EndToEnd.Run(c.w, c.hs)) {
        OnlyPairBoots(p, c);
        AgreementBetweenDaemons(c.w, c.ua, c.ub, c.ta, c.tb, c.m, c.hs);
      }
    } else {
      BrokenOtherwise(p);
    }
  }

  /** So are packets conserved after every run, under exactly the same condition. */
  lemma ConservationIff(p: Pair)
    requires Joined(p)
    ensures AlwaysConserved(p) <==> OnlyPair(p)
  {
    if OnlyPair(p) {
      forall c | Possible(p, c) ensures Conserved(EndToEnd.Run(c.w, c.hs)) {
        OnlyPairBoots(p, c);
        PacketsConserved(c.w, c.ua, c.ub, c.ta, c.tb, c.m, c.hs);
      }
    } else {
      BrokenOtherwise(p);
    }
  }
}
