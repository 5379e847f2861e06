/**
 Two daemons with any number of peers each, joined by one relationship, in a network that delivers
 anything except what only the two ends of that relationship could have sealed and did not.
 */
module EndToEnd {
  import opened Words
  import opened Terms
  import opened Sessions
  import opened Peers
  import opened Daemon
  import Links
  import Routing

  // ---------------------------------------------------------------- one event and one session

  /** The session calls behind an event: at most one, then possibly a new handshake attempt. */
  datatype Calls = Calls(call: Option<Call>, attempt: bool)

  function AfterCall(s: Session, c: Option<Call>): Session {
    if c.None? then s else Do(s, c.value).s
  }

  function AfterCalls(s: Session, cs: Calls): Session {
    var s1 := AfterCall(s, cs.call);
    if cs.attempt then StartAndBuild(s1) else s1
  }

  predicate CallFits(n: Node, e: Event, k: nat, c: Call) {
    match c
    case StartCall => false
    case BuildInitCall(_) => false
    case HandleInitCall(msg, outLen) => e.FromUdp? && msg == e.msg
    case HandleResponseCall(msg) => e.FromUdp? && msg == e.msg
    case OpenDataCall(msg, outLen) => e.FromUdp? && msg == e.msg
    case SealDataCall(payload, outLen) =>
      (e.Timers? && payload == [])
          || (e.FromTun? && payload == e.packet && Routing.RoutePacket(n.table, e.packet) == Some(k))
  }

  lemma CallsOfStep(n: Node, e: Event, k: nat, q: Peer) returns (cs: Calls)
    requires k < |n.peers| && PeerStep(n, e, k, q)
    ensures q.session == AfterCalls(n.peers[k].session, cs)
    ensures cs.call.Some? ==> CallFits(n, e, k, cs.call.value)
    ensures cs.attempt ==> n.peers[k].session.role == Initiator && e.Timers?
  {
    var p := n.peers[k];
    cs := Calls(None, false);
    if q.session == p.session {
      return;
    }
    match e
    case FromTun(packet, now, sent) => cs := Calls(Some(SealDataCall(packet, SEALED_BUF_SIZE)), false);
    case FromUdp(from, msg, now, sent, written) =>
      if msg.kind == HANDSHAKE_INIT {
        cs := Calls(Some(HandleInitCall(msg, HANDSHAKE_MSG_LEN)), false);
      } else if msg.kind == HANDSHAKE_RESPONSE {
        cs := Calls(Some(HandleResponseCall(msg)), false);
      } else {
        cs := Calls(Some(OpenDataCall(msg, MAX_PACKET_SIZE)), false);
      }
    case Timers(now, lookups) =>
      var a := Keepalive(p, now);
      var call := if a == p then None else Some(SealDataCall([], SEALED_BUF_SIZE));
      cs := Calls(call, q.session != a.session);
  }

  lemma AttemptKeepsInv(s: Session, m: nat)
    requires Inv(s) && Bounded(s, m) && m + 1 < TWO_TO_THE_64
    ensures Inv(StartAndBuild(s)) && Bounded(StartAndBuild(s), m + 1)
  {
    StartKeeps(s);
    BuildInitKeeps(Start(s), SEALED_BUF_SIZE, m);
  }

  lemma CallKeepsInv(s: Session, c: Option<Call>, m: nat)
    requires Inv(s) && Bounded(s, m) && m + 1 < TWO_TO_THE_64
    ensures Inv(AfterCall(s, c)) && Bounded(AfterCall(s, c), m + 1)
  {
    if c.Some? {
      DoKeeps(s, c.value, m);
    }
  }

  lemma CallsKeepInv(s: Session, cs: Calls, m: nat)
    requires Inv(s) && Bounded(s, m) && m + 2 < TWO_TO_THE_64
    ensures Inv(AfterCalls(s, cs)) && Bounded(AfterCalls(s, cs), m + 2)
  {
    CallKeepsInv(s, cs.call, m);
    if cs.attempt {
      AttemptKeepsInv(AfterCall(s, cs.call), m + 1);
    }
  }

  lemma InitiatorSide(l: Links.Link, h0: U64, cs: Calls, m: nat)
    requires Links.LinkInv(l, h0) && Bounded(l.i, m) && m + 2 < TWO_TO_THE_64
    requires cs.call.Some? ==> Links.Enabled(l, cs.call.value)
    ensures Links.LinkInv(l.(i := AfterCalls(l.i, cs)), h0)
  {
    var l1 := l.(i := AfterCall(l.i, cs.call));
    if cs.call.Some? {
      Links.InitiatorMoveKeeps(l, h0, cs.call.value, m);
      assert l1 == Links.Next(l, Links.AtInitiator(cs.call.value));
      DoKeeps(l.i, cs.call.value, m);
    }
    if cs.attempt {
      Links.InitiateKeeps(l1, h0, m + 1);
    }
  }

  lemma ResponderSide(l: Links.Link, h0: U64, cs: Calls, m: nat)
    requires Links.LinkInv(l, h0) && Bounded(l.r, m) && m + 2 < TWO_TO_THE_64
    requires cs.call.Some? ==> Links.Enabled(l, cs.call.value)
    requires !cs.attempt
    ensures Links.LinkInv(l.(r := AfterCalls(l.r, cs)), h0)
  {
    if cs.call.Some? {
      Links.ResponderMoveKeeps(l, h0, cs.call.value, m);
    }
  }

  // ---------------------------------------------------------------- packets, counted with their repetitions

  type Packets = multiset<seq<Byte>>

  /** The packet a datagram carries; handshake messages and keepalives carry none. */
  function Carried(d: Datagram): Packets {
    if d.Datagram? && d.kind == DATA && d.body.Box? && d.body.plain.Packet? && d.body.plain.bytes != []
    then multiset{d.body.plain.bytes} else multiset{}
  }

  function Payloads(log: seq<Datagram>): Packets {
    if log == [] then multiset{} else Payloads(log[..|log| - 1]) + Carried(log[|log| - 1])
  }

  /** The packets written to the TUN device on behalf of peer k. */
  function Written(ws: seq<Write>, k: nat): Packets {
    if ws == [] then multiset{}
    else
      var w := ws[|ws| - 1];
      Written(ws[..|ws| - 1], k) + if w.peer == k then multiset{w.packet} else multiset{}
  }

  /** The packets read from the TUN device whose destination selects peer k. */
  function Read(t: Routing.Table, packets: seq<seq<Byte>>, k: nat): Packets {
    if packets == [] then multiset{}
    else
      var p := packets[|packets| - 1];
      Read(t, packets[..|packets| - 1], k) + if Routing.RoutePacket(t, p) == Some(k) then multiset{p} else multiset{}
  }

  lemma PayloadsSnoc(log: seq<Datagram>, d: Datagram)
    ensures Payloads(log + [d]) == Payloads(log) + Carried(d)
  {
    assert (log + [d])[..|log|] == log;
  }

  lemma SealPayloads(s: Session, packet: seq<Byte>)
    ensures var o := SealData(s, packet, SEALED_BUF_SIZE);
            && o.s.hist.delivered == s.hist.delivered
            && Payloads(o.s.hist.sealed) == Payloads(s.hist.sealed) + if o.reply.Sent? && packet != []
                then multiset{packet} else multiset{}
  {
    var o := SealData(s, packet, SEALED_BUF_SIZE);
    if o.reply.Sent? {
      PayloadsSnoc(s.hist.sealed, o.reply.msg);
    }
  }

  lemma AttemptPayloads(s: Session)
    ensures StartAndBuild(s).hist.delivered == s.hist.delivered
    ensures Payloads(StartAndBuild(s).hist.sealed) == Payloads(s.hist.sealed)
  {
    var o := BuildInit(Start(s), SEALED_BUF_SIZE);
    if o.reply.Sent? {
      PayloadsSnoc(s.hist.sealed, o.reply.msg);
    }
  }

  lemma AnswerPayloads(s: Session, d: Datagram)
    ensures var o := HandleInit(s, d, HANDSHAKE_MSG_LEN);
            o.s.hist.delivered == s.hist.delivered && Payloads(o.s.hist.sealed) == Payloads(s.hist.sealed)
  {
    var o := HandleInit(s, d, HANDSHAKE_MSG_LEN);
    if o.reply.Sent? {
      PayloadsSnoc(s.hist.sealed, o.reply.msg);
    }
  }

  lemma OpenPayloads(s: Session, d: Datagram)
    ensures var o := OpenData(s, d, MAX_PACKET_SIZE);
            && o.s.hist.sealed == s.hist.sealed
            && Payloads(o.s.hist.delivered) == Payloads(s.hist.delivered)
                 + if o.reply.Received? && o.reply.payload != [] then multiset{o.reply.payload} else multiset{}
  {
    if OpenData(s, d, MAX_PACKET_SIZE).reply.Received? {
      PayloadsSnoc(s.hist.delivered, d);
    }
  }

  /** Peer k has sealed no packet more often than it was read for it, and no packet was written for
      it more often than it was handed up. */
  ghost predicate Traffic(n: Node, k: nat)
    requires k < |n.peers|
  {
    && Payloads(n.peers[k].session.hist.sealed) <= Read(n.table, n.tunIn, k)
    && Written(n.tunOut, k) <= Payloads(n.peers[k].session.hist.delivered)
  }

  lemma ReadSnoc(t: Routing.Table, packets: seq<seq<Byte>>, packet: seq<Byte>, k: nat)
    ensures Read(t, packets + [packet], k) ==
              Read(t, packets, k) + if Routing.RoutePacket(t, packet) == Some(k) then multiset{packet} else multiset{}
  {
    assert (packets + [packet])[..|packets|] == packets;
  }

  lemma SendPayloads(p: Peer, packet: seq<Byte>, now: U64, sent: bool)
    ensures var q := SendPacket(p, packet, now, sent);
            && q.session.hist.delivered == p.session.hist.delivered
            && Payloads(q.session.hist.sealed) <= Payloads(p.session.hist.sealed) + multiset{packet}
  {
    SealPayloads(p.session, packet);
  }

  lemma TunTraffic(n: Node, e: Event, k: nat)
    requires k < |n.peers| && Traffic(n, k) && e.FromTun?
    ensures Traffic(Step(n, e), k)
  {
    ReadSnoc(n.table, n.tunIn, e.packet, k);
    SendPayloads(n.peers[k], e.packet, e.now, e.sent);
    var q := Step(n, e).peers[k];
    assert q == if Routing.RoutePacket(n.table, e.packet) == Some(k)
        then SendPacket(n.peers[k], e.packet, e.now, e.sent) else n.peers[k];
  }

  lemma StrangerTraffic(n: Node, e: Event, k: nat)
    requires k < |n.peers| && Traffic(n, k) && FromStrangerEvent(n, e)
    ensures Traffic(Step(n, e), k)
  {
    var m, s := Step(n, e), n.peers[k].session;
    FindResponderFrame(n.peers, e.msg, 0, k);
    AnswerPayloads(s, e.msg);
    assert m.tunIn == n.tunIn && m.tunOut == n.tunOut;
    assert m.peers[k].session == s || m.peers[k].session == HandleInit(s, e.msg, HANDSHAKE_MSG_LEN).s;
  }

  /** What a datagram hands up at this peer. */
  function HandedUp(p: Peer, msg: Datagram): Packets
    requires msg.Datagram?
  {
    var o := OpenData(p.session, msg, MAX_PACKET_SIZE);
    if msg.kind == DATA && o.reply.Received? && o.reply.payload != [] then multiset{o.reply.payload} else multiset{}
  }

  lemma KnownPayloads(p: Peer, msg: Datagram, now: U64, sent: bool, written: bool)
    requires msg.Datagram?
    ensures var q := FromKnown(p, msg, now, sent, written);
            && Payloads(q.session.hist.sealed) == Payloads(p.session.hist.sealed)
            && Payloads(q.session.hist.delivered) == Payloads(p.session.hist.delivered) + HandedUp(p, msg)
  {
    var s := FromKnown(p, msg, now, sent, written).session;
    if msg.kind == DATA {
      assert s == OpenData(p.session, msg, MAX_PACKET_SIZE).s;
      OpenPayloads(p.session, msg);
    } else if msg.kind == HANDSHAKE_INIT && p.session.role == Responder {
      assert s == HandleInit(p.session, msg, HANDSHAKE_MSG_LEN).s;
      AnswerPayloads(p.session, msg);
    } else {
      assert s.hist.sealed == p.session.hist.sealed && s.hist.delivered == p.session.hist.delivered;
    }
  }

  lemma WrittenIsHandedUp(p: Peer, f: nat, msg: Datagram, written: bool, k: nat)
    requires msg.Datagram?
    ensures Written(WrittenBy(p, f, msg, written), k) <= if k == f then HandedUp(p, msg) else multiset{}
  {
    var w := WrittenBy(p, f, msg, written);
    if w != [] {
      assert w[..0] == [];
    }
  }

  lemma WrittenConcat(ws: seq<Write>, more: seq<Write>, k: nat)
    requires |more| <= 1
    ensures Written(ws + more, k) == Written(ws, k) + Written(more, k)
  {
    if more == [] {
      assert ws + more == ws;
    } else {
      assert (ws + more)[..|ws|] == ws;
    }
  }

  lemma KnownTraffic(n: Node, e: Event, k: nat)
    requires k < |n.peers| && Traffic(n, k) && e.FromUdp? && !FromStrangerEvent(n, e)
    ensures Traffic(Step(n, e), k)
  {
    var m := Step(n, e);
    assert m.tunIn == n.tunIn;
    if e.msg.Datagram? && FindByAddr(n.peers, e.from, 0).Some? {
      var f := FindByAddr(n.peers, e.from, 0).value;
      var more := WrittenBy(n.peers[f], f, e.msg, e.written);
      assert m.tunOut == n.tunOut + more;
      assert m.peers[k] == if k == f then FromKnown(n.peers[k], e.msg, e.now, e.sent, e.written) else n.peers[k];
      KnownPayloads(n.peers[f], e.msg, e.now, e.sent, e.written);
      WrittenIsHandedUp(n.peers[f], f, e.msg, e.written, k);
      WrittenConcat(n.tunOut, more, k);
    }
  }

  lemma TickSession(p: Peer, now: U64, lookup: Option<Endpoint>)
    ensures var a, s := Keepalive(p, now).session, Tick(p, now, lookup).session;
            && (a == p.session || a == SealData(p.session, [], SEALED_BUF_SIZE).s)
            && (s == a || s == StartAndBuild(a))
  {
  }

  lemma TickPayloads(p: Peer, now: U64, lookup: Option<Endpoint>)
    ensures var q := Tick(p, now, lookup);
            && q.session.hist.delivered == p.session.hist.delivered
            && Payloads(q.session.hist.sealed) == Payloads(p.session.hist.sealed)
  {
    TickSession(p, now, lookup);
    SealPayloads(p.session, []);
    AttemptPayloads(Keepalive(p, now).session);
  }

  lemma TimerTraffic(n: Node, e: Event, k: nat)
    requires k < |n.peers| && Traffic(n, k) && e.Timers?
    ensures Traffic(Step(n, e), k)
  {
    if |e.lookups| == |n.peers| {
      TickPayloads(n.peers[k], e.now, e.lookups[k]);
      assert Step(n, e).peers[k] == Tick(n.peers[k], e.now, e.lookups[k]);
    }
  }

  lemma StepTraffic(n: Node, e: Event, k: nat)
    requires k < |n.peers| && Traffic(n, k)
    ensures Traffic(Step(n, e), k)
  {
    if FromStrangerEvent(n, e) {
      StrangerTraffic(n, e, k);
    } else {
      match e
      case FromTun(_, _, _) => TunTraffic(n, e, k);
      case FromUdp(_, _, _, _, _) => KnownTraffic(n, e, k);
      case Timers(_, _) => TimerTraffic(n, e, k);
    }
  }

  /** Boxes that are all different, each found in another log, carry no packet more often than it does. */
  lemma {:induction false} SublogCarriesLess(sub: seq<Datagram>, log: seq<Datagram>)
    requires Distinct(sub) && forall d | d in sub :: d in log
    ensures Payloads(sub) <= Payloads(log)
  {
    if sub == [] {
    } else {
      var rest, d := sub[..|sub| - 1], sub[|sub| - 1];
      assert d in sub;
      var j :| 0 <= j < |log| && log[j] == d;
      var others := Without(log, j);
      forall f | f in rest ensures f in others {
        assert f in sub;
        var i :| 0 <= i < |log| && log[i] == f;
        assert others[if i < j then i else i - 1] == f;
      }
      SublogCarriesLess(rest, others);
      PayloadsRemove(log, j);
    }
  }

  function Without(log: seq<Datagram>, j: nat): seq<Datagram>
    requires j < |log|
  {
    log[..j] + log[j + 1..]
  }

  lemma WithoutPrefix(log: seq<Datagram>, j: nat)
    requires j + 1 < |log|
    ensures var n := |log| - 1; Without(log, j) == Without(log[..n], j) + [log[n]]
  {
  }

  lemma {:induction false} PayloadsRemove(log: seq<Datagram>, j: nat)
    requires j < |log|
    ensures Payloads(log) == Payloads(Without(log, j)) + Carried(log[j])
  {
    var n := |log| - 1;
    if j == n {
      assert Without(log, j) == log[..n];
    } else {
      PayloadsRemove(log[..n], j);
      WithoutPrefix(log, j);
      PayloadsSnoc(Without(log[..n], j), log[n]);
      SwapSum(Payloads(Without(log[..n], j)), Carried(log[j]), Carried(log[n]));
    }
  }

  lemma SwapSum(a: Packets, b: Packets, c: Packets)
    ensures a + b + c == a + c + b
  {
  }

  // ---------------------------------------------------------------- two daemons

  /** Node `a` is the initiator towards node `b` in its relationship x, which is relationship y of `b`. */
  datatype World = World(a: nat, b: nat, x: nat, y: nat, na: Node, nb: Node)

  datatype Happening = AtA(e: Event) | AtB(e: Event)

  predicate InRange(w: World) {
    w.x < |w.na.peers| && w.y < |w.nb.peers|
  }

  function LinkOf(w: World): Links.Link
    requires InRange(w)
  {
    Links.Link(w.a, w.b, w.na.peers[w.x].session, w.nb.peers[w.y].session)
  }

  predicate Emitted(n: Node, d: Datagram) {
    exists k :: 0 <= k < |n.peers| && d in n.peers[k].session.hist.sealed
  }

  /** Only the two daemons seal under keys made of the link's secrets; anything else may come from anywhere. */
  predicate Obtainable(w: World, d: Datagram)
    requires InRange(w)
  {
    d.Datagram? && d.body.Box? && Links.LinkKey(LinkOf(w), d.body.key) ==> Emitted(w.na, d) || Emitted(w.nb, d)
  }

  function Next(w: World, h: Happening): (r: World)
    requires InRange(w)
    ensures InRange(r) && r.x == w.x && r.y == w.y
  {
    if h.e.FromUdp? && !Obtainable(w, h.e.msg) then w
    else match h
      case AtA(e) => w.(na := Step(w.na, e))
      case AtB(e) => w.(nb := Step(w.nb, e))
  }

  function Run(w: World, hs: seq<Happening>): (r: World)
    requires InRange(w)
    ensures InRange(r) && r.x == w.x && r.y == w.y
  {
    if hs == [] then w else Next(Run(w, hs[..|hs| - 1]), hs[|hs| - 1])
  }

  /** A session of some other relationship. */
  predicate Outsider(l: Links.Link, s: Session) {
    && s.owner != l.i.owner && s.owner != l.r.owner
    && !Links.LinkKey(l, s.staticKeys.tx) && !Links.LinkKey(l, s.staticKeys.rx)
  }

  ghost predicate SessionsOk(n: Node, l: Links.Link, mine: nat, m: nat) {
    forall k | 0 <= k < |n.peers| ::
      Inv(n.peers[k].session) && Bounded(n.peers[k].session, m) && (k != mine ==> Outsider(l, n.peers[k].session))
  }

  ghost predicate WorldInv(w: World, h0: U64, m: nat)
    requires InRange(w)
  {
    && Links.LinkInv(LinkOf(w), h0)
    && SessionsOk(w.na, LinkOf(w), w.x, m) && SessionsOk(w.nb, LinkOf(w), w.y, m)
  }

  lemma OutsidersSealElsewhere(l: Links.Link, s: Session, d: Datagram)
    requires Outsider(l, s) && Inv(s) && d in s.hist.sealed
    ensures !Links.LinkKey(l, d.body.key)
  {
    assert SealedOk(s, d);
  }

  lemma ObtainableIsAvailable(w: World, h0: U64, m: nat, d: Datagram)
    requires InRange(w) && WorldInv(w, h0, m) && Obtainable(w, d)
    ensures Links.Available(LinkOf(w), d)
  {
    var l := LinkOf(w);
    if d.Datagram? && d.body.Box? && Links.LinkKey(l, d.body.key) {
      if Emitted(w.na, d) {
        var k :| 0 <= k < |w.na.peers| && d in w.na.peers[k].session.hist.sealed;
        if k != w.x {
          OutsidersSealElsewhere(l, w.na.peers[k].session, d);
        }
      } else {
        var k :| 0 <= k < |w.nb.peers| && d in w.nb.peers[k].session.hist.sealed;
        if k != w.y {
          OutsidersSealElsewhere(l, w.nb.peers[k].session, d);
        }
      }
    }
  }

  /** An event at one node keeps every session of it sound, and the others out of the link. */
  lemma NodeStep(n: Node, e: Event, l: Links.Link, mine: nat, m: nat)
    requires SessionsOk(n, l, mine, m) && m + 2 < TWO_TO_THE_64
    ensures SessionsOk(Step(n, e), l, mine, m + 2)
  {
    forall k | 0 <= k < |n.peers|
      ensures var s := Step(n, e).peers[k].session;
              Inv(s) && Bounded(s, m + 2) && (k != mine ==> Outsider(l, s))
    {
      StepAt(n, e, k);
      PeerStepKeepsRole(n, e, k, Step(n, e).peers[k]);
      var cs := CallsOfStep(n, e, k, Step(n, e).peers[k]);
      CallsKeepInv(n.peers[k].session, cs, m);
    }
  }

  /** Which sessions are outside a link depends on its nodes and owners only. */
  lemma SessionsFrame(n: Node, l: Links.Link, k: Links.Link, mine: nat, m: nat, more: nat)
    requires SessionsOk(n, l, mine, m) && m <= more
    requires k.a == l.a && k.b == l.b && k.i.owner == l.i.owner && k.r.owner == l.r.owner
    ensures SessionsOk(n, k, mine, more)
  {
  }

  lemma NextKeepsA(w: World, h0: U64, m: nat, e: Event)
    requires InRange(w) && WorldInv(w, h0, m) && m + 2 < TWO_TO_THE_64
    requires e.FromUdp? ==> Obtainable(w, e.msg)
    ensures WorldInv(w.(na := Step(w.na, e)), h0, m + 2)
  {
    var l, q := LinkOf(w), Step(w.na, e).peers[w.x];
    if e.FromUdp? {
      ObtainableIsAvailable(w, h0, m, e.msg);
    }
    StepAt(w.na, e, w.x);
    PeerStepKeepsRole(w.na, e, w.x, q);
    var cs := CallsOfStep(w.na, e, w.x, q);
    InitiatorSide(l, h0, cs, m);
    NodeStep(w.na, e, l, w.x, m);
    var k := l.(i := q.session);
    SessionsFrame(Step(w.na, e), l, k, w.x, m + 2, m + 2);
    SessionsFrame(w.nb, l, k, w.y, m, m + 2);
    assert LinkOf(w.(na := Step(w.na, e))) == k;
  }

  lemma NextKeepsB(w: World, h0: U64, m: nat, e: Event)
    requires InRange(w) && WorldInv(w, h0, m) && m + 2 < TWO_TO_THE_64
    requires e.FromUdp? ==> Obtainable(w, e.msg)
    ensures WorldInv(w.(nb := Step(w.nb, e)), h0, m + 2)
  {
    var l, q := LinkOf(w), Step(w.nb, e).peers[w.y];
    if e.FromUdp? {
      ObtainableIsAvailable(w, h0, m, e.msg);
    }
    StepAt(w.nb, e, w.y);
    PeerStepKeepsRole(w.nb, e, w.y, q);
    var cs := CallsOfStep(w.nb, e, w.y, q);
    ResponderSide(l, h0, cs, m);
    NodeStep(w.nb, e, l, w.y, m);
    var k := l.(r := q.session);
    SessionsFrame(Step(w.nb, e), l, k, w.y, m + 2, m + 2);
    SessionsFrame(w.na, l, k, w.x, m, m + 2);
    assert LinkOf(w.(nb := Step(w.nb, e))) == k;
  }

  lemma WorldMonotone(w: World, h0: U64, m: nat, more: nat)
    requires InRange(w) && WorldInv(w, h0, m) && m <= more
    ensures WorldInv(w, h0, more)
  {
  }

  lemma NextKeeps(w: World, h0: U64, m: nat, h: Happening, v: World, top: nat)
    requires InRange(w) && WorldInv(w, h0, m) && m + 2 == top < TWO_TO_THE_64 && v == Next(w, h)
    ensures WorldInv(v, h0, top)
  {
    if h.e.FromUdp? && !Obtainable(w, h.e.msg) {
      WorldMonotone(w, h0, m, top);
    } else if h.AtA? {
      NextKeepsA(w, h0, m, h.e);
    } else {
      NextKeepsB(w, h0, m, h.e);
    }
  }

  lemma RunSnoc(w: World, hs: seq<Happening>)
    requires InRange(w) && hs != []
    ensures Run(w, hs) == Next(Run(w, hs[..|hs| - 1]), hs[|hs| - 1])
  {
  }

  lemma {:induction false} RunKeeps(w: World, h0: U64, m: nat, hs: seq<Happening>, v: World, top: nat)
    requires InRange(w) && WorldInv(w, h0, m) && m + 2 * |hs| == top < TWO_TO_THE_64 && v == Run(w, hs)
    ensures WorldInv(v, h0, top)
    decreases |hs|
  {
    if hs == [] {
    } else {
      var before, mid := hs[..|hs| - 1], top - 2;
      var u := Run(w, before);
      RunKeeps(w, h0, m, before, u, mid);
      RunSnoc(w, hs);
      NextKeeps(u, h0, mid, hs[|hs| - 1], v, top);
    }
  }

  lemma {:induction false} RunTraffic(w: World, hs: seq<Happening>)
    requires InRange(w) && Traffic(w.na, w.x) && Traffic(w.nb, w.y)
    ensures Traffic(Run(w, hs).na, w.x) && Traffic(Run(w, hs).nb, w.y)
  {
    if hs == [] {
    } else {
      RunTraffic(w, hs[..|hs| - 1]);
      var v, h := Run(w, hs[..|hs| - 1]), hs[|hs| - 1];
      StepTraffic(v.na, h.e, w.x);
      StepTraffic(v.nb, h.e, w.y);
    }
  }

  // ---------------------------------------------------------------- starting the two daemons

  /** The two nodes name each other in sections x and y; no other section of that role names the same
      key, and owners are unique. The nodes may well be paired again with the roles exchanged. */
  ghost predicate Paired(w: World, ua: seq<Startup>, ub: seq<Startup>) {
    && w.x < |ua| && w.y < |ub| && w.a != w.b
    && ua[w.x].role == Initiator && ua[w.x].peer == PublicOf(Static(w.b))
    && ub[w.y].role == Responder && ub[w.y].peer == PublicOf(Static(w.a))
    && ua[w.x].owner != ub[w.y].owner
    && (forall k | 0 <= k < |ua| && k != w.x :: Elsewhere(ua[w.x], ub[w.y], ua[w.x], ua[k]))
    && (forall k | 0 <= k < |ub| && k != w.y :: Elsewhere(ua[w.x], ub[w.y], ub[w.y], ub[k]))
  }

  /** Section `u` stands beside section `mine`, which is `i` or `r`. */
  ghost predicate Elsewhere(i: Startup, r: Startup, mine: Startup, u: Startup) {
    && u.owner != i.owner && u.owner != r.owner && u.peer.PublicOf? && u.peer.secret.Static?
    && !(u.role == mine.role && u.peer == mine.peer)
  }

  ghost predicate ClocksBelow(us: seq<Startup>, m: nat) {
    forall k | 0 <= k < |us| :: us[k].wallClock < m
  }

  lemma BootSession(node: nat, u: Startup, m: nat)
    requires u.peer.PublicOf? && u.wallClock < m < TWO_TO_THE_64
    ensures Inv(BootPeer(node, u).session) && Bounded(BootPeer(node, u).session, m)
  {
    var s0 := Init(u.role, u.owner, node, u.peer, u.wallClock).value;
    InitEstablishesInv(u.role, u.owner, node, u.peer, u.wallClock);
    StartKeeps(s0);
    BuildInitKeeps(Start(s0), SEALED_BUF_SIZE, u.wallClock);
  }

  lemma BootLogs(node: nat, u: Startup)
    requires u.peer.PublicOf?
    ensures var s := BootPeer(node, u).session;
            s.owner == u.owner && s.hist.delivered == [] && Payloads(s.hist.sealed) == multiset{}
    ensures BootPeer(node, u).session.staticKeys == Derive(u.role, PublicOf(Static(node)), Static(node), u.peer).value
  {
    AttemptPayloads(Init(u.role, u.owner, node, u.peer, u.wallClock).value);
  }

  lemma BootLink(a: nat, b: nat, i: Startup, r: Startup)
    requires a != b && i.owner != r.owner && i.wallClock + 1 < TWO_TO_THE_64
    requires i.role == Initiator && i.peer == PublicOf(Static(b)) && r.role == Responder
    requires r.peer == PublicOf(Static(a))
    ensures Links.LinkInv(Links.Link(a, b, BootPeer(a, i).session, BootPeer(b, r).session), i.wallClock)
  {
    var l := Links.Open(a, b, i.owner, r.owner, i.wallClock, r.wallClock);
    Links.OpenKeeps(a, b, i.owner, r.owner, i.wallClock, r.wallClock);
    Links.InitiateKeeps(l, i.wallClock, i.wallClock);
  }

  /** `mine` is the section behind one end of the link, on that end's node. */
  ghost predicate EndOf(l: Links.Link, node: nat, mine: Startup) {
    && l.a != l.b
    && (|| (node == l.a && mine.role == Initiator && mine.peer == PublicOf(Static(l.b)))
        || (node == l.b && mine.role == Responder && mine.peer == PublicOf(Static(l.a))))
  }

  lemma BootOutsider(l: Links.Link, node: nat, i: Startup, r: Startup, mine: Startup, u: Startup)
    requires l.i.owner == i.owner && l.r.owner == r.owner && EndOf(l, node, mine) && Elsewhere(i, r, mine, u)
    ensures Outsider(l, BootPeer(node, u).session)
  {
    BootLogs(node, u);
  }

  lemma BootNode(n: Node, node: nat, us: seq<Startup>, t: U64, l: Links.Link, i: Startup, r: Startup, mine: nat, m: nat)
    requires Booted(n, node, us, t) && ClocksBelow(us, m) && m < TWO_TO_THE_64 && mine < |us|
    requires l.i.owner == i.owner && l.r.owner == r.owner && EndOf(l, node, us[mine])
    requires forall k | 0 <= k < |us| && k != mine :: Elsewhere(i, r, us[mine], us[k])
    ensures SessionsOk(n, l, mine, m) && Traffic(n, mine)
  {
    forall k | 0 <= k < |us|
      ensures var s := n.peers[k].session; Inv(s) && Bounded(s, m) && (k != mine ==> Outsider(l, s))
    {
      assert n.peers[k] == BootPeer(node, us[k]);
      BootSession(node, us[k], m);
      if k != mine {
        BootOutsider(l, node, i, r, us[mine], us[k]);
      }
    }
    assert n.peers[mine] == BootPeer(node, us[mine]);
    BootLogs(node, us[mine]);
  }

  /** Both daemons have just started. */
  ghost predicate WorldBooted(w: World, ua: seq<Startup>, ub: seq<Startup>, ta: U64, tb: U64, m: nat) {
    && Booted(w.na, w.a, ua, ta) && Booted(w.nb, w.b, ub, tb) && Paired(w, ua, ub)
    && ClocksBelow(ua, m) && ClocksBelow(ub, m)
  }

  /** Packets have come out of one node's TUN device on behalf of the relationship only if they went into
      the other's with a destination that selects it, and no more often. */
  ghost predicate Conserved(w: World) {
    && Written(w.nb.tunOut, w.y) <= Read(w.na.table, w.na.tunIn, w.x)
    && Written(w.na.tunOut, w.x) <= Read(w.nb.table, w.nb.tunIn, w.y)
  }

  /** If the initiator is established, so is the responder: it answered exactly the pending INIT and holds
      the mirror image of the initiator's keys. */
  ghost predicate Agreed(w: World)
    requires InRange(w)
  {
    var i, r := w.na.peers[w.x].session, w.nb.peers[w.y].session;
    i.phase == Established ==>
      r.phase == Established && r.highestSeen == i.pendingCounter && Mirrored(i.dataKeys, r.dataKeys)
  }

  /** Whatever happens, packets are conserved. */
  lemma PacketsConserved(w: World, ua: seq<Startup>, ub: seq<Startup>, ta: U64, tb: U64, m: nat, hs: seq<Happening>)
    requires WorldBooted(w, ua, ub, ta, tb, m) && m + 2 * |hs| < TWO_TO_THE_64
    ensures Conserved(Run(w, hs))
  {
    BootWorld(w, ua, ub, ta, tb, m);
    ConservedAfter(w, ua[w.x].wallClock, m, hs);
  }

  /** Between two daemons too, on every run, the two ends agree. */
  lemma AgreementBetweenDaemons(w: World, ua: seq<Startup>, ub: seq<Startup>, ta: U64, tb: U64, m: nat,
                                hs: seq<Happening>)
    requires WorldBooted(w, ua, ub, ta, tb, m) && m + 2 * |hs| < TWO_TO_THE_64
    ensures Agreed(Run(w, hs))
  {
    BootWorld(w, ua, ub, ta, tb, m);
    RunKeeps(w, ua[w.x].wallClock, m, hs, Run(w, hs), m + 2 * |hs|);
  }

  lemma ConservedAfter(w: World, h0: U64, m: nat, hs: seq<Happening>)
    requires InRange(w) && WorldInv(w, h0, m) && Traffic(w.na, w.x) && Traffic(w.nb, w.y)
    requires m + 2 * |hs| < TWO_TO_THE_64
    ensures Conserved(Run(w, hs))
  {
    RunKeeps(w, h0, m, hs, Run(w, hs), m + 2 * |hs|);
    RunTraffic(w, hs);
    var l := LinkOf(Run(w, hs));
    NonceDistinct(l.i.hist.delivered);
    NonceDistinct(l.r.hist.delivered);
    SublogCarriesLess(l.r.hist.delivered, l.i.hist.sealed);
    SublogCarriesLess(l.i.hist.delivered, l.r.hist.sealed);
  }

  lemma BootWorld(w: World, ua: seq<Startup>, ub: seq<Startup>, ta: U64, tb: U64, m: nat)
    requires WorldBooted(w, ua, ub, ta, tb, m) && m < TWO_TO_THE_64
    ensures InRange(w) && WorldInv(w, ua[w.x].wallClock, m) && Traffic(w.na, w.x) && Traffic(w.nb, w.y)
  {
    var i, r := ua[w.x], ub[w.y];
    assert w.na.peers[w.x] == BootPeer(w.a, i) && w.nb.peers[w.y] == BootPeer(w.b, r);
    BootLink(w.a, w.b, i, r);
    BootLogs(w.a, i);
    BootLogs(w.b, r);
    BootNode(w.na, w.a, ua, ta, LinkOf(w), i, r, w.x, m);
    BootNode(w.nb, w.b, ub, tb, LinkOf(w), i, r, w.y, m);
  }

  lemma NonceDistinct(log: seq<Datagram>)
    requires NoNonceReuse(log) && forall d | d in log :: d.Datagram? && d.body.Box?
    ensures Distinct(log)
  {
    assert forall d | d in log :: SameNonce(d, d);
  }

  // ---------------------------------------------------------------- one daemon among strangers

  ghost predicate AllSound(n: Node, m: nat) {
    forall k | 0 <= k < |n.peers| :: Inv(n.peers[k].session) && Bounded(n.peers[k].session, m)
  }

  lemma StepSound(n: Node, e: Event, m: nat)
    requires AllSound(n, m) && m + 2 < TWO_TO_THE_64
    ensures AllSound(Step(n, e), m + 2)
  {
    forall k | 0 <= k < |n.peers|
      ensures Inv(Step(n, e).peers[k].session) && Bounded(Step(n, e).peers[k].session, m + 2)
    {
      StepAt(n, e, k);
      var cs := CallsOfStep(n, e, k, Step(n, e).peers[k]);
      CallsKeepInv(n.peers[k].session, cs, m);
    }
  }

  lemma {:induction false} RunSound(n: Node, events: seq<Event>, m: nat, top: nat)
    requires AllSound(n, m) && top == m + 2 * |events| < TWO_TO_THE_64
    ensures AllSound(Daemon.Run(n, events), top)
  {
    if events == [] {
    } else {
      RunSound(n, events[..|events| - 1], m, top - 2);
      StepSound(Daemon.Run(n, events[..|events| - 1]), events[|events| - 1], top - 2);
    }
  }

  lemma BootedSound(n: Node, node: nat, us: seq<Startup>, t: U64, m: nat)
    requires Booted(n, node, us, t) && ClocksBelow(us, m) && m < TWO_TO_THE_64
    ensures AllSound(n, m)
  {
    forall j | 0 <= j < |us| ensures Inv(n.peers[j].session) && Bounded(n.peers[j].session, m) {
      assert n.peers[j] == BootPeer(node, us[j]);
      BootSession(node, us[j], m);
    }
  }

  /** On every run of a daemon, whatever arrives from wherever: no peer's session seals twice with one
      key and counter, the counters of the INITs it sends or answers strictly increase, it hands up no
      message twice, and it establishes at most one key set per ephemeral key. */
  lemma DaemonSafety(n: Node, node: nat, us: seq<Startup>, t: U64, m: nat, events: seq<Event>, k: nat)
    requires Booted(n, node, us, t) && ClocksBelow(us, m) && m + 2 * |events| < TWO_TO_THE_64 && k < |us|
    ensures var s := Daemon.Run(n, events).peers[k].session;
            && NoNonceReuse(s.hist.sealed) && CountersIncrease(s.hist.sealed, s.staticKeys.tx)
            && NoNonceReuse(s.hist.delivered) && EphemeralsUsedOnce(s.hist.epochs)
  {
    BootedSound(n, node, us, t, m);
    RunSound(n, events, m, m + 2 * |events|);
  }
}
