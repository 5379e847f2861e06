/**
 One initiator and one responder over links that lose nothing and keep order, in real time: every
 loop comes round within G ms and every datagram is processed within D ms of being sent.
 */
module Liveness {
  import opened Words
  import opened Terms
  import opened Sessions
  import opened Peers
  import Daemon
  import Links
  import EndToEnd

  datatype Flight = Flight(sentAt: U64, msg: Datagram)

  /** `passI` and `passR` are the times of the last timer passes; `toR` and `toI` what is under way. */
  datatype Duo = Duo(a: nat, b: nat, i: Peer, r: Peer, now: U64, passI: U64, passR: U64, toR: seq<Flight>,
                     toI: seq<Flight>)

  datatype Limits = Limits(loop: nat, delay: nat)

  datatype Beat =
    | Advance(t: U64)
    | PassI(lookup: Option<Endpoint>)
    | PassR(lookup: Option<Endpoint>)
    | DeliverR(from: Endpoint)
    | DeliverI
    | SendI(packet: seq<Byte>)
    | SendR(packet: seq<Byte>)

  /** What a session sealed on the way from `s` to `t` goes out at `now`. */
  function Launched(s: Session, t: Session, now: U64): seq<Flight> {
    if |s.hist.sealed| <= |t.hist.sealed| then
      var news := t.hist.sealed[|s.hist.sealed|..];
      seq(|news|, k requires 0 <= k < |news| => Flight(now, news[k]))
    else []
  }

  /** A datagram reaches the responder, which may not know the sender's address yet. */
  function Arrive(p: Peer, from: Endpoint, msg: Datagram, now: U64): Peer {
    if p.resolved then (if msg.Datagram? then Daemon.FromKnown(p, msg, now, true, true) else p)
    else
      var o := HandleInit(p.session, msg, HANDSHAKE_MSG_LEN);
      if o.reply.Sent? then Peer(o.s, true, from, now, now, now) else p.(session := o.s)
  }

  /** It is the daemon's own dispatch, on a node with this one peer, when a known sender keeps its address. */
  lemma ArriveIsStep(n: Daemon.Node, from: Endpoint, msg: Datagram, now: U64)
    requires |n.peers| == 1 && (n.peers[0].resolved ==> from == n.peers[0].addr)
    ensures Daemon.Step(n, Daemon.FromUdp(from, msg, now, true, true)).peers == [Arrive(n.peers[0], from, msg, now)]
  {
    if !n.peers[0].resolved && msg.Datagram? && msg.kind == HANDSHAKE_INIT {
      Daemon.FindResponderFrame(n.peers, msg, 0, 0);
    }
  }

  predicate MayAdvance(w: Duo, lim: Limits, t: U64) {
    && w.now <= t && t <= w.passI + lim.loop && t <= w.passR + lim.loop
    && (forall f | f in w.toR :: t <= f.sentAt + lim.delay)
    && (forall f | f in w.toI :: t <= f.sentAt + lim.delay)
  }

  function SetI(w: Duo, p: Peer): Duo {
    w.(i := p, toR := w.toR + Launched(w.i.session, p.session, w.now))
  }

  function SetR(w: Duo, p: Peer): Duo {
    w.(r := p, toI := w.toI + Launched(w.r.session, p.session, w.now))
  }

  function Next(w: Duo, lim: Limits, m: Beat): Duo {
    match m
    case Advance(t) => if MayAdvance(w, lim, t) then w.(now := t) else w
    case PassI(lookup) => SetI(w, Tick(w.i, w.now, lookup)).(passI := w.now)
    case PassR(lookup) => SetR(w, Tick(w.r, w.now, lookup)).(passR := w.now)
    case DeliverR(from) => if w.toR == [] then w
        else SetR(w, Arrive(w.r, from, w.toR[0].msg, w.now)).(toR := w.toR[1..])
    case DeliverI => if w.toI == [] then w else SetI(w, Arrive(w.i, w.i.addr, w.toI[0].msg, w.now)).(toI := w.toI[1..])
    case SendI(packet) => SetI(w, SendPacket(w.i, packet, w.now, true))
    case SendR(packet) => SetR(w, SendPacket(w.r, packet, w.now, true))
  }

  function Run(w: Duo, lim: Limits, ms: seq<Beat>): Duo {
    if ms == [] then w else Next(Run(w, lim, ms[..|ms| - 1]), lim, ms[|ms| - 1])
  }

  // ---------------------------------------------------------------- the link behind the duo

  function LinkOf(w: Duo): Links.Link {
    Links.Link(w.a, w.b, w.i.session, w.r.session)
  }

  /** What is under way is exactly the end of what was sealed: nothing lost, nothing overtaken. */
  ghost predicate InOrder(ch: seq<Flight>, s: Session) {
    && |ch| <= |s.hist.sealed|
    && forall k | 0 <= k < |ch| :: ch[k].msg == s.hist.sealed[|s.hist.sealed| - |ch| + k]
  }

  ghost predicate Base(w: Duo, h0: U64, n: nat) {
    && Links.LinkInv(LinkOf(w), h0) && Bounded(w.i.session, n) && Bounded(w.r.session, n)
    && w.i.session.handshakeCounter > h0
    && InOrder(w.toR, w.i.session) && InOrder(w.toI, w.r.session)
  }

  lemma TickCalls(p: Peer, now: U64, lookup: Option<Endpoint>) returns (cs: EndToEnd.Calls)
    ensures Tick(p, now, lookup).session == EndToEnd.AfterCalls(p.session, cs)
    ensures cs.call.Some? ==> cs.call.value == SealDataCall([], SEALED_BUF_SIZE)
    ensures cs.attempt ==> p.session.role == Initiator
  {
    var q := Keepalive(p, now);
    var call := if q == p then None else Some(SealDataCall([], SEALED_BUF_SIZE));
    cs := EndToEnd.Calls(call, Tick(p, now, lookup).session != q.session);
  }

  lemma ArriveCalls(p: Peer, from: Endpoint, msg: Datagram, now: U64) returns (c: Option<Call>)
    ensures Arrive(p, from, msg, now).session == EndToEnd.AfterCall(p.session, c)
    ensures c == None || c == Some(HandleInitCall(msg, HANDSHAKE_MSG_LEN)) || c == Some(HandleResponseCall(msg))
         || c == Some(OpenDataCall(msg, MAX_PACKET_SIZE))
  {
    if Arrive(p, from, msg, now).session == p.session {
      c := None;
    } else if msg.kind == HANDSHAKE_INIT || !p.resolved {
      c := Some(HandleInitCall(msg, HANDSHAKE_MSG_LEN));
    } else if msg.kind == HANDSHAKE_RESPONSE {
      c := Some(HandleResponseCall(msg));
    } else {
      c := Some(OpenDataCall(msg, MAX_PACKET_SIZE));
    }
  }

  /** Sessions only ever add to what they sealed. */
  lemma CallsExtend(s: Session, cs: EndToEnd.Calls)
    ensures s.hist.sealed <= EndToEnd.AfterCalls(s, cs).hist.sealed
  {
  }

  lemma LaunchKeepsOrder(ch: seq<Flight>, s: Session, t: Session, now: U64)
    requires InOrder(ch, s) && s.hist.sealed <= t.hist.sealed
    ensures InOrder(ch + Launched(s, t, now), t)
  {
  }

  lemma BaseI(w: Duo, h0: U64, n: nat, p: Peer, cs: EndToEnd.Calls)
    requires Base(w, h0, n) && n + 2 < TWO_TO_THE_64
    requires p.session == EndToEnd.AfterCalls(w.i.session, cs)
    requires cs.call.Some? ==> Links.Enabled(LinkOf(w), cs.call.value)
    ensures Base(SetI(w, p), h0, n + 2)
  {
    EndToEnd.InitiatorSide(LinkOf(w), h0, cs, n);
    EndToEnd.CallsKeepInv(w.i.session, cs, n);
    CallsExtend(w.i.session, cs);
    LaunchKeepsOrder(w.toR, w.i.session, p.session, w.now);
    CounterStays(w.i.session, cs, n);
  }

  lemma CounterStays(s: Session, cs: EndToEnd.Calls, n: nat)
    requires Bounded(s, n) && n + 2 < TWO_TO_THE_64
    ensures EndToEnd.AfterCalls(s, cs).handshakeCounter >= s.handshakeCounter
  {
  }

  lemma BaseR(w: Duo, h0: U64, n: nat, p: Peer, cs: EndToEnd.Calls)
    requires Base(w, h0, n) && n + 2 < TWO_TO_THE_64 && !cs.attempt
    requires p.session == EndToEnd.AfterCalls(w.r.session, cs)
    requires cs.call.Some? ==> Links.Enabled(LinkOf(w), cs.call.value)
    ensures Base(SetR(w, p), h0, n + 2)
  {
    EndToEnd.ResponderSide(LinkOf(w), h0, cs, n);
    EndToEnd.CallsKeepInv(w.r.session, cs, n);
    CallsExtend(w.r.session, cs);
    LaunchKeepsOrder(w.toI, w.r.session, p.session, w.now);
  }

  lemma PopKeepsOrder(ch: seq<Flight>, s: Session)
    requires InOrder(ch, s) && ch != []
    ensures InOrder(ch[1..], s) && ch[0].msg in s.hist.sealed
  {
    assert ch[0].msg == s.hist.sealed[|s.hist.sealed| - |ch|];
  }

  lemma BasePassI(w: Duo, lim: Limits, h0: U64, n: nat, lookup: Option<Endpoint>)
    requires Base(w, h0, n) && n + 2 < TWO_TO_THE_64
    ensures Base(Next(w, lim, PassI(lookup)), h0, n + 2)
  {
    var cs := TickCalls(w.i, w.now, lookup);
    BaseI(w, h0, n, Tick(w.i, w.now, lookup), cs);
  }

  lemma BasePassR(w: Duo, lim: Limits, h0: U64, n: nat, lookup: Option<Endpoint>)
    requires Base(w, h0, n) && n + 2 < TWO_TO_THE_64
    ensures Base(Next(w, lim, PassR(lookup)), h0, n + 2)
  {
    var cs := TickCalls(w.r, w.now, lookup);
    BaseR(w, h0, n, Tick(w.r, w.now, lookup), cs);
  }

  lemma BaseSend(w: Duo, lim: Limits, h0: U64, n: nat, packet: seq<Byte>)
    requires Base(w, h0, n) && n + 2 < TWO_TO_THE_64
    ensures Base(Next(w, lim, SendI(packet)), h0, n + 2) && Base(Next(w, lim, SendR(packet)), h0, n + 2)
  {
    var cs := EndToEnd.Calls(Some(SealDataCall(packet, SEALED_BUF_SIZE)), false);
    BaseI(w, h0, n, SendPacket(w.i, packet, w.now, true), cs);
    BaseR(w, h0, n, SendPacket(w.r, packet, w.now, true), cs);
  }

  lemma BaseAdvance(w: Duo, lim: Limits, h0: U64, n: nat, t: U64)
    requires Base(w, h0, n)
    ensures Base(Next(w, lim, Advance(t)), h0, n + 2)
  {
  }

  lemma BaseNext(w: Duo, lim: Limits, h0: U64, n: nat, m: Beat, v: Duo, top: nat)
    requires Base(w, h0, n) && n + 2 == top < TWO_TO_THE_64 && v == Next(w, lim, m)
    ensures Base(v, h0, top)
  {
    match m
    case Advance(t) => BaseAdvance(w, lim, h0, n, t);
    case PassI(lookup) => BasePassI(w, lim, h0, n, lookup);
    case PassR(lookup) => BasePassR(w, lim, h0, n, lookup);
    case DeliverR(from) => BaseDeliverR(w, lim, h0, n, from);
    case DeliverI => BaseDeliverI(w, lim, h0, n);
    case SendI(packet) => BaseSend(w, lim, h0, n, packet);
    case SendR(packet) => BaseSend(w, lim, h0, n, packet);
  }

  lemma BaseDeliverR(w: Duo, lim: Limits, h0: U64, n: nat, from: Endpoint)
    requires Base(w, h0, n) && n + 2 < TWO_TO_THE_64
    ensures Base(Next(w, lim, DeliverR(from)), h0, n + 2)
  {
    if w.toR != [] {
      PopKeepsOrder(w.toR, w.i.session);
      var c := ArriveCalls(w.r, from, w.toR[0].msg, w.now);
      BaseR(w, h0, n, Arrive(w.r, from, w.toR[0].msg, w.now), EndToEnd.Calls(c, false));
    }
  }

  lemma BaseDeliverI(w: Duo, lim: Limits, h0: U64, n: nat)
    requires Base(w, h0, n) && n + 2 < TWO_TO_THE_64
    ensures Base(Next(w, lim, DeliverI), h0, n + 2)
  {
    if w.toI != [] {
      PopKeepsOrder(w.toI, w.r.session);
      var c := ArriveCalls(w.i, w.i.addr, w.toI[0].msg, w.now);
      BaseI(w, h0, n, Arrive(w.i, w.i.addr, w.toI[0].msg, w.now), EndToEnd.Calls(c, false));
    }
  }

  // ---------------------------------------------------------------- time

  ghost predicate OnTime(ch: seq<Flight>, now: U64, delay: nat) {
    forall f | f in ch :: f.sentAt <= now <= f.sentAt + delay
  }

  ghost predicate Timely(w: Duo, lim: Limits) {
    && w.passI <= w.now && w.passR <= w.now <= w.passR + lim.loop
    && OnTime(w.toR, w.now, lim.delay) && OnTime(w.toI, w.now, lim.delay)
    && TimersOk(w.i, w.now) && TimersOk(w.r, w.now) && w.i.resolved
    && (w.r.session.phase == Established ==> w.r.resolved && w.passR < w.r.lastTx + KEEPALIVE_INTERVAL_MS)
  }

  lemma LaunchOnTime(ch: seq<Flight>, s: Session, t: Session, now: U64, delay: nat)
    requires OnTime(ch, now, delay)
    ensures OnTime(ch + Launched(s, t, now), now, delay)
  {
  }

  lemma TimelyI(w: Duo, lim: Limits, p: Peer)
    requires Timely(w, lim) && TimersOk(p, w.now) && p.resolved
    ensures Timely(SetI(w, p), lim)
  {
    LaunchOnTime(w.toR, w.i.session, p.session, w.now, lim.delay);
  }

  lemma TimelyR(w: Duo, lim: Limits, p: Peer)
    requires Timely(w, lim) && TimersOk(p, w.now)
    requires p.session.phase == Established ==> p.resolved && w.passR < p.lastTx + KEEPALIVE_INTERVAL_MS
    ensures Timely(SetR(w, p), lim)
  {
    LaunchOnTime(w.toI, w.r.session, p.session, w.now, lim.delay);
  }

  lemma TimelyPass(w: Duo, lim: Limits, lookup: Option<Endpoint>)
    requires Timely(w, lim) && w.r.session.role == Responder
    ensures Timely(Next(w, lim, PassI(lookup)), lim) && Timely(Next(w, lim, PassR(lookup)), lim)
  {
    TickIsPunctual(w.i, w.now, lookup);
    TimelyI(w, lim, Tick(w.i, w.now, lookup));
    TickIsPunctual(w.r, w.now, lookup);
    TimelyR(w, lim, Tick(w.r, w.now, lookup));
  }

  /** What arrives at a peer moves its timestamps to now, if at all, and an answer teaches it the address. */
  lemma ArriveTimers(p: Peer, from: Endpoint, msg: Datagram, now: U64)
    requires TimersOk(p, now)
    ensures var q := Arrive(p, from, msg, now);
            && TimersOk(q, now) && (p.resolved ==> q.resolved) && q.lastTx >= p.lastTx
            && (q.session.phase == Established && p.session.phase == Pending && p.session.role == Responder ==>
                q.resolved && q.lastTx == now)
  {
  }

  lemma TimelyDeliverR(w: Duo, lim: Limits, from: Endpoint)
    requires Timely(w, lim) && w.r.session.role == Responder
    ensures Timely(Next(w, lim, DeliverR(from)), lim)
  {
    if w.toR != [] {
      ArriveTimers(w.r, from, w.toR[0].msg, w.now);
      TimelyR(w, lim, Arrive(w.r, from, w.toR[0].msg, w.now));
    }
  }

  lemma TimelyDeliverI(w: Duo, lim: Limits)
    requires Timely(w, lim)
    ensures Timely(Next(w, lim, DeliverI), lim)
  {
    if w.toI != [] {
      ArriveTimers(w.i, w.i.addr, w.toI[0].msg, w.now);
      TimelyI(w, lim, Arrive(w.i, w.i.addr, w.toI[0].msg, w.now));
    }
  }

  lemma TimelySend(w: Duo, lim: Limits, packet: seq<Byte>)
    requires Timely(w, lim)
    ensures Timely(Next(w, lim, SendI(packet)), lim) && Timely(Next(w, lim, SendR(packet)), lim)
  {
    TimelyI(w, lim, SendPacket(w.i, packet, w.now, true));
    TimelyR(w, lim, SendPacket(w.r, packet, w.now, true));
  }

  lemma TimelyNext(w: Duo, lim: Limits, m: Beat, v: Duo)
    requires Timely(w, lim) && w.r.session.role == Responder && v == Next(w, lim, m)
    ensures Timely(v, lim)
  {
    match m
    case Advance(t) =>
    case PassI(lookup) => TimelyPass(w, lim, lookup);
    case PassR(lookup) => TimelyPass(w, lim, lookup);
    case DeliverR(from) => TimelyDeliverR(w, lim, from);
    case DeliverI => TimelyDeliverI(w, lim);
    case SendI(packet) => TimelySend(w, lim, packet);
    case SendR(packet) => TimelySend(w, lim, packet);
  }

  // ---------------------------------------------------------------- the three phases of a handshake

  /** An upper bound, never reached, on the time between two sends of an established responder. */
  function MaxGap(lim: Limits): nat {
    KEEPALIVE_INTERVAL_MS + lim.loop
  }

  /** The initiator's INIT is under way, the last thing it sent. */
  ghost predicate Awaiting(w: Duo) {
    && w.i.session.phase == Pending && w.toR != []
    && var f := w.toR[|w.toR| - 1];
    && f.sentAt == w.i.lastRx
    && SealedUnder(f.msg, w.i.session.staticKeys.tx) && f.msg.body.counter == w.i.session.pendingCounter
    && (w.r.session.haveSeen ==> w.r.session.highestSeen < w.i.session.pendingCounter)
  }

  /** The k-th datagram under way is data under `key`, with counters running up to `next`. */
  ghost predicate DataAt(ch: seq<Flight>, key: SessionKey, next: U64, k: nat)
    requires k < |ch|
  {
    var d := ch[k].msg;
    && SealedUnder(d, key) && d.kind == DATA
    && d.body.counter == next - (|ch| - k)
    && d.body.plain.Packet? && |d.body.plain.bytes| <= MAX_PACKET_SIZE
  }

  ghost predicate NoPause(ch: seq<Flight>, lim: Limits, k: nat, from: nat, base: int)
    requires from <= k < |ch|
  {
    ch[k].sentAt < (if k == from then base else ch[k - 1].sentAt) + MaxGap(lim)
  }

  /** From index `from` on there is only such data, sent without long pauses since `base`, the last at `lastTx`. */
  ghost predicate Flowing(ch: seq<Flight>, key: SessionKey, next: U64, lastTx: U64, lim: Limits, from: nat, base: int) {
    && from <= |ch|
    && (forall k | from <= k < |ch| :: DataAt(ch, key, next, k))
    && (forall k | from <= k < |ch| :: NoPause(ch, lim, k, from, base))
    && (if from < |ch| then lastTx == ch[|ch| - 1].sentAt else lastTx <= base)
  }

  /** What flows from the responder of `w`. */
  ghost predicate FlowingIn(w: Duo, lim: Limits, from: nat, base: int) {
    Flowing(w.toI, w.r.session.dataKeys.tx, w.r.session.txCounter, w.r.lastTx, lim, from, base)
  }

  /** The responder's answer is under way, with `w.r.session.txCounter` data messages behind it. */
  ghost predicate Answered(w: Duo, lim: Limits) {
    && w.i.session.phase == Pending && w.i.session.accepted == {}
    && w.r.session.phase == Established && w.r.session.highestSeen == w.i.session.pendingCounter
    && w.r.session.txCounter < |w.toI|
    && var p := |w.toI| - 1 - w.r.session.txCounter;
    && w.toI[p].msg ==
        Datagram(HANDSHAKE_RESPONSE, Box(w.r.session.staticKeys.tx, w.i.session.pendingCounter, Key(w.r.session.ephPk)))
    && w.toI[p].sentAt <= w.i.lastRx + lim.delay
    && FlowingIn(w, lim, p + 1, w.toI[p].sentAt)
  }

  /** Both ends established, and only fresh data on the way, sent without long pauses since `base`. */
  ghost predicate SteadySince(w: Duo, lim: Limits, base: U64) {
    && w.i.session.phase == Established
    && |w.toI| <= w.r.session.txCounter
    && (forall c | c in w.i.session.accepted :: c < w.r.session.txCounter - |w.toI|)
    && FlowingIn(w, lim, 0, base)
  }

  ghost predicate Steady(w: Duo, lim: Limits) {
    SteadySince(w, lim, w.i.lastRx)
  }

  ghost predicate Healthy(w: Duo, lim: Limits) {
    Awaiting(w) || Answered(w, lim) || Steady(w, lim)
  }

  ghost predicate Feasible(lim: Limits) {
    KEEPALIVE_INTERVAL_MS + lim.loop + lim.delay < SESSION_TIMEOUT_MS && 2 * lim.delay < SESSION_TIMEOUT_MS
  }

  /** A healthy initiator is never silent long enough to be taken for dead, and a handshake takes
      at most two delays. */
  lemma HealthyIsAlive(w: Duo, lim: Limits)
    requires Healthy(w, lim) && Timely(w, lim) && Feasible(lim)
    requires w.i.session.phase == Established ==> w.r.session.phase == Established
    ensures !DeadPeer(w.i, w.now) && w.now - w.i.lastRx < SESSION_TIMEOUT_MS
    ensures w.i.session.phase == Pending ==> w.now - w.i.lastRx <= 2 * lim.delay
  {
    if Awaiting(w) {
      assert w.toR[|w.toR| - 1] in w.toR;
    } else if Answered(w, lim) {
      assert w.toI[|w.toI| - 1 - w.r.session.txCounter] in w.toI;
    } else if w.toI != [] {
      var f := w.toI[0];
      assert f in w.toI && NoPause(w.toI, lim, 0, 0, w.i.lastRx);
    }
  }

  // ---------------------------------------------------------------- steps of the responder

  /** The responder sends data at the current time. */
  lemma FlowingSend(w: Duo, lim: Limits, p: Peer, payload: seq<Byte>, from: nat, base: int)
    requires FlowingIn(w, lim, from, base) && Timely(w, lim) && w.r.session.phase == Established
    requires w.r.session.txCounter + 1 < TWO_TO_THE_64
    requires SealData(w.r.session, payload, SEALED_BUF_SIZE).reply.Sent?
    requires p.session == SealData(w.r.session, payload, SEALED_BUF_SIZE).s
    requires p.lastTx == w.now
    ensures FlowingIn(SetR(w, p), lim, from, base)
    ensures |SetR(w, p).toI| == |w.toI| + 1 && SetR(w, p).toI[..|w.toI|] == w.toI
  {
    var v := SetR(w, p);
    assert p.session.hist.sealed[|w.r.session.hist.sealed|..] ==
        [SealData(w.r.session, payload, SEALED_BUF_SIZE).reply.msg];
    forall k | from <= k < |v.toI|
      ensures DataAt(v.toI, v.r.session.dataKeys.tx, v.r.session.txCounter, k) && NoPause(v.toI, lim, k, from, base)
    {
      if k < |w.toI| {
        assert DataAt(w.toI, w.r.session.dataKeys.tx, w.r.session.txCounter, k) && NoPause(w.toI, lim, k, from, base);
      }
    }
  }

  lemma AnsweredSend(w: Duo, lim: Limits, p: Peer, payload: seq<Byte>)
    requires Answered(w, lim) && Timely(w, lim)
    requires w.r.session.txCounter + 1 < TWO_TO_THE_64
    requires SealData(w.r.session, payload, SEALED_BUF_SIZE).reply.Sent?
    requires p.session == SealData(w.r.session, payload, SEALED_BUF_SIZE).s
    requires p.lastTx == w.now
    ensures Answered(SetR(w, p), lim)
  {
    var q := |w.toI| - 1 - w.r.session.txCounter;
    FlowingSend(w, lim, p, payload, q + 1, w.toI[q].sentAt);
    assert SetR(w, p).toI[q] == w.toI[q];
  }

  lemma ResponderSends(w: Duo, lim: Limits, p: Peer, payload: seq<Byte>)
    requires Healthy(w, lim) && Timely(w, lim) && w.r.session.phase == Established
    requires w.r.session.txCounter + 1 < TWO_TO_THE_64
    requires SealData(w.r.session, payload, SEALED_BUF_SIZE).reply.Sent?
    requires p.session == SealData(w.r.session, payload, SEALED_BUF_SIZE).s
    requires p.lastTx == w.now
    ensures Healthy(SetR(w, p), lim)
  {
    if Awaiting(w) {
      assert Awaiting(SetR(w, p));
    } else if Answered(w, lim) {
      AnsweredSend(w, lim, p, payload);
    } else {
      FlowingSend(w, lim, p, payload, 0, w.i.lastRx);
      assert Steady(SetR(w, p), lim);
    }
  }

  /** Once the responder has answered the pending INIT, nothing the initiator has under way moves it. */
  lemma ArriveQuiet(w: Duo, h0: U64, n: nat, from: Endpoint)
    requires Base(w, h0, n) && w.toR != [] && w.r.resolved
    requires w.r.session.phase == Established && w.r.session.highestSeen == w.i.session.pendingCounter
    ensures var q := Arrive(w.r, from, w.toR[0].msg, w.now);
            && q.lastTx == w.r.lastTx
            && q.session == w.r.session.(accepted := q.session.accepted, hist := q.session.hist)
            && q.session.hist.sealed == w.r.session.hist.sealed
  {
    var d := w.toR[0].msg;
    PopKeepsOrder(w.toR, w.i.session);
    assert SealedOk(w.i.session, d);
    assert !InitAccepted(w.r.session, d, HANDSHAKE_MSG_LEN);
  }

  lemma QuietKeepsHealth(w: Duo, lim: Limits, q: Peer, rest: seq<Flight>)
    requires Answered(w, lim) || Steady(w, lim)
    requires q.lastTx == w.r.lastTx && q.session == w.r.session.(accepted := q.session.accepted, hist := q.session.hist)
    requires q.session.hist.sealed == w.r.session.hist.sealed
    ensures Healthy(SetR(w, q).(toR := rest), lim)
  {
    var v := SetR(w, q).(toR := rest);
    assert v.toI == w.toI;
    if Answered(w, lim) {
      assert Answered(v, lim);
    } else {
      assert Steady(v, lim);
    }
  }

  lemma HealthIgnoresClocks(w: Duo, v: Duo, lim: Limits)
    requires Healthy(w, lim) && v == w.(now := v.now, passI := v.passI, passR := v.passR)
    ensures Healthy(v, lim)
  {
    if Answered(w, lim) {
      assert Answered(v, lim);
    } else if Steady(w, lim) {
      assert Steady(v, lim);
    }
  }

  /** The pending INIT arrives and is answered. */
  lemma InitArrives(w: Duo, lim: Limits, h0: U64, n: nat, from: Endpoint)
    requires Base(w, h0, n) && Timely(w, lim) && Awaiting(w) && |w.toR| == 1
    ensures Answered(Next(w, lim, DeliverR(from)), lim)
  {
    var d := w.toR[0].msg;
    PopKeepsOrder(w.toR, w.i.session);
    assert SealedOk(w.i.session, d) && d.body.plain == Key(w.i.session.ephPk);
    assert InitAccepted(w.r.session, d, HANDSHAKE_MSG_LEN);
    var o := HandleInit(w.r.session, d, HANDSHAKE_MSG_LEN);
    var q := Arrive(w.r, from, d, w.now);
    assert q.session == o.s && q.lastTx == w.now;
    assert q.session.hist.sealed[|w.r.session.hist.sealed|..] == [o.reply.msg];
    assert w.toR[0] in w.toR;
  }

  /** Something older arrives while the INIT is under way. */
  lemma OlderArrives(w: Duo, lim: Limits, h0: U64, n: nat, from: Endpoint)
    requires Base(w, h0, n) && Awaiting(w) && |w.toR| > 1
    ensures Awaiting(Next(w, lim, DeliverR(from)))
  {
    var d, last := w.toR[0].msg, w.toR[|w.toR| - 1].msg;
    PopKeepsOrder(w.toR, w.i.session);
    var log := w.i.session.hist.sealed;
    assert d == log[|log| - |w.toR|] && last == log[|log| - 1];
    assert !SameNonce(d, last);
    assert SealedOk(w.i.session, d);
  }

  lemma QuietDelivery(w: Duo, lim: Limits, h0: U64, n: nat, from: Endpoint, v: Duo)
    requires Base(w, h0, n) && Timely(w, lim) && (Answered(w, lim) || Steady(w, lim)) && w.toR != []
    requires v == Next(w, lim, DeliverR(from))
    ensures Healthy(v, lim)
  {
    ArriveQuiet(w, h0, n, from);
    QuietKeepsHealth(w, lim, Arrive(w.r, from, w.toR[0].msg, w.now), w.toR[1..]);
  }

  lemma DeliverRKeeps(w: Duo, lim: Limits, h0: U64, n: nat, from: Endpoint, v: Duo)
    requires Base(w, h0, n) && Timely(w, lim) && Healthy(w, lim) && v == Next(w, lim, DeliverR(from))
    ensures Healthy(v, lim)
  {
    if w.toR == [] {
    } else if !Awaiting(w) {
      QuietDelivery(w, lim, h0, n, from, v);
    } else if |w.toR| == 1 {
      InitArrives(w, lim, h0, n, from);
    } else {
      OlderArrives(w, lim, h0, n, from);
    }
  }

  // ---------------------------------------------------------------- steps of the initiator

  lemma FlowingDrop(w: Duo, lim: Limits, base: int)
    requires FlowingIn(w, lim, 0, base) && w.toI != []
    ensures FlowingIn(w, lim, 1, w.toI[0].sentAt)
  {
    forall k | 1 <= k < |w.toI| ensures NoPause(w.toI, lim, k, 1, w.toI[0].sentAt) {
      assert NoPause(w.toI, lim, k, 0, base);
    }
  }

  lemma FlowingPop(w: Duo, v: Duo, lim: Limits, from: nat, to: nat, base: int, later: int)
    requires from == to + 1 && FlowingIn(w, lim, from, base) && base <= later && w.toI != []
    requires v.toI == w.toI[1..] && v.r == w.r
    ensures FlowingIn(v, lim, to, later)
  {
    var key, next := w.r.session.dataKeys.tx, w.r.session.txCounter;
    forall k | to <= k < |v.toI| ensures DataAt(v.toI, key, next, k) && NoPause(v.toI, lim, k, to, later) {
      assert DataAt(w.toI, key, next, k + 1) && NoPause(w.toI, lim, k + 1, from, base);
    }
    assert to < |v.toI| ==> v.toI[|v.toI| - 1] == w.toI[|w.toI| - 1];
  }

  /** While its INIT is unanswered, or the answer is still behind, the initiator refuses what arrives. */
  lemma PendingRefuses(w: Duo, lim: Limits, h0: U64, n: nat)
    requires Base(w, h0, n) && w.toI != [] && w.i.session.phase == Pending && w.i.resolved
    requires var d := w.toI[0].msg;
        SealedUnder(d, w.r.session.staticKeys.tx) ==> d.body.counter != w.i.session.pendingCounter
    ensures Next(w, lim, DeliverI) == w.(toI := w.toI[1..])
  {
    PopKeepsOrder(w.toI, w.r.session);
    assert SealedOk(w.r.session, w.toI[0].msg);
    assert Arrive(w.i, w.i.addr, w.toI[0].msg, w.now) == w.i;
    assert Launched(w.i.session, w.i.session, w.now) == [];
  }

  /** What is under way ahead of the answer is not the answer. */
  lemma AheadOfAnswer(w: Duo, lim: Limits, h0: U64, n: nat)
    requires Base(w, h0, n) && Answered(w, lim) && w.r.session.txCounter + 1 < |w.toI|
    ensures var d := w.toI[0].msg;
        SealedUnder(d, w.r.session.staticKeys.tx) ==> d.body.counter != w.i.session.pendingCounter
  {
    var p := |w.toI| - 1 - w.r.session.txCounter;
    var log := w.r.session.hist.sealed;
    assert w.toI[0].msg == log[|log| - |w.toI|] && w.toI[p].msg == log[|log| - |w.toI| + p];
    assert !SameNonce(w.toI[0].msg, w.toI[p].msg);
  }

  lemma AnsweredPop(w: Duo, lim: Limits)
    requires Answered(w, lim) && w.r.session.txCounter + 1 < |w.toI|
    ensures Answered(w.(toI := w.toI[1..]), lim)
  {
    var p := |w.toI| - 1 - w.r.session.txCounter;
    var v := w.(toI := w.toI[1..]);
    FlowingPop(w, v, lim, p + 1, p, w.toI[p].sentAt, w.toI[p].sentAt);
    assert v.toI[p - 1] == w.toI[p];
  }

  lemma AnswerArrives(w: Duo, lim: Limits, h0: U64, n: nat)
    requires Base(w, h0, n) && Timely(w, lim) && Answered(w, lim) && w.r.session.txCounter + 1 == |w.toI|
    ensures Steady(Next(w, lim, DeliverI), lim)
  {
    var d := w.toI[0].msg;
    assert HandleResponse(w.i.session, d).reply.Done?;
    var v := Next(w, lim, DeliverI);
    assert v.i.lastRx == w.now && v.i.session.phase == Established && v.i.session.accepted == {};
    assert w.toI[0] in w.toI;
    FlowingPop(w, v, lim, 1, 0, w.toI[0].sentAt, w.now);
  }

  lemma DataArrives(w: Duo, lim: Limits, h0: U64, n: nat, base: U64)
    requires Base(w, h0, n) && Timely(w, lim) && SteadySince(w, lim, base) && w.toI != []
    ensures Steady(Next(w, lim, DeliverI), lim)
  {
    assert DataAt(w.toI, w.r.session.dataKeys.tx, w.r.session.txCounter, 0);
    assert OpenData(w.i.session, w.toI[0].msg, MAX_PACKET_SIZE).reply.Received?;
    var v := Next(w, lim, DeliverI);
    assert v.i.lastRx == w.now && v.i.session.phase == Established;
    assert v.i.session.accepted == w.i.session.accepted + {w.toI[0].msg.body.counter};
    assert w.toI[0] in w.toI;
    FlowingDrop(w, lim, base);
    FlowingPop(w, v, lim, 1, 0, w.toI[0].sentAt, w.now);
  }

  lemma DeliverIKeeps(w: Duo, lim: Limits, h0: U64, n: nat)
    requires Base(w, h0, n) && Timely(w, lim) && Healthy(w, lim)
    ensures Healthy(Next(w, lim, DeliverI), lim)
  {
    if w.toI != [] {
      if Awaiting(w) {
        PopKeepsOrder(w.toI, w.r.session);
        assert SealedOk(w.r.session, w.toI[0].msg);
        PendingRefuses(w, lim, h0, n);
        assert Awaiting(Next(w, lim, DeliverI));
      } else if Steady(w, lim) {
        DataArrives(w, lim, h0, n, w.i.lastRx);
      } else if w.r.session.txCounter + 1 == |w.toI| {
        AnswerArrives(w, lim, h0, n);
      } else {
        AheadOfAnswer(w, lim, h0, n);
        PendingRefuses(w, lim, h0, n);
        AnsweredPop(w, lim);
      }
    }
  }

  lemma AttemptAwaits(w: Duo, q: Peer, lookup: Option<Endpoint>, h0: U64)
    requires Links.LinkInv(LinkOf(w), h0) && w.i.session.handshakeCounter + 1 < TWO_TO_THE_64
    requires q.resolved && q.session.role == Initiator && q.session.handshakeCounter == w.i.session.handshakeCounter
    requires q.session.staticKeys == w.i.session.staticKeys && w.i.session.hist.sealed <= q.session.hist.sealed
    ensures Awaiting(SetI(w, Initiate(q, w.now, lookup)))
  {
    var p := Initiate(q, w.now, lookup);
    var news := p.session.hist.sealed[|w.i.session.hist.sealed|..];
    assert news[|news| - 1] == p.session.hist.sealed[|p.session.hist.sealed| - 1];
  }

  lemma PassIKeeps(w: Duo, lim: Limits, h0: U64, n: nat, lookup: Option<Endpoint>)
    requires Base(w, h0, n) && Timely(w, lim) && Healthy(w, lim) && Feasible(lim) && n + 2 < TWO_TO_THE_64
    ensures Healthy(SetI(w, Tick(w.i, w.now, lookup)), lim)
  {
    HealthyIsAlive(w, lim);
    var q := Keepalive(w.i, w.now);
    if w.i.session.phase == Pending {
      assert Tick(w.i, w.now, lookup) == w.i;
      assert Launched(w.i.session, w.i.session, w.now) == [];
      assert SetI(w, w.i) == w;
    } else if KeysExpired(q, w.now) {
      AttemptAwaits(w, q, lookup, h0);
    } else {
      assert Steady(SetI(w, q), lim);
    }
  }

  // ---------------------------------------------------------------- every run

  lemma RSendKeeps(w: Duo, lim: Limits, h0: U64, n: nat, p: Peer, payload: seq<Byte>)
    requires Base(w, h0, n) && Timely(w, lim) && Healthy(w, lim) && n + 2 < TWO_TO_THE_64
    requires p.session == SealData(w.r.session, payload, SEALED_BUF_SIZE).s
    requires SealData(w.r.session, payload, SEALED_BUF_SIZE).reply.Sent? ==> p.lastTx == w.now
    requires SealData(w.r.session, payload, SEALED_BUF_SIZE).reply.Refused? ==> p == w.r
    ensures Healthy(SetR(w, p), lim)
  {
    if SealData(w.r.session, payload, SEALED_BUF_SIZE).reply.Sent? {
      ResponderSends(w, lim, p, payload);
    } else {
      assert Launched(w.r.session, w.r.session, w.now) == [];
      assert SetR(w, p) == w;
    }
  }

  lemma PassRKeeps(w: Duo, lim: Limits, h0: U64, n: nat, lookup: Option<Endpoint>)
    requires Base(w, h0, n) && Timely(w, lim) && Healthy(w, lim) && n + 2 < TWO_TO_THE_64
    ensures Healthy(SetR(w, Tick(w.r, w.now, lookup)), lim)
  {
    var p := Tick(w.r, w.now, lookup);
    assert p == Keepalive(w.r, w.now);
    if p == w.r {
      assert Launched(w.r.session, w.r.session, w.now) == [];
      assert SetR(w, p) == w;
    } else {
      RSendKeeps(w, lim, h0, n, p, []);
    }
  }

  lemma SendIKeeps(w: Duo, lim: Limits, h0: U64, n: nat, packet: seq<Byte>)
    requires Base(w, h0, n) && Healthy(w, lim)
    ensures Healthy(SetI(w, SendPacket(w.i, packet, w.now, true)), lim)
  {
    var p := SendPacket(w.i, packet, w.now, true);
    if w.i.session.phase == Pending {
      assert p == w.i && Launched(w.i.session, w.i.session, w.now) == [];
      assert SetI(w, p) == w;
    } else {
      assert Steady(SetI(w, p), lim);
    }
  }

  lemma NextHealthy(w: Duo, lim: Limits, h0: U64, n: nat, m: Beat, v: Duo)
    requires Base(w, h0, n) && Timely(w, lim) && Healthy(w, lim) && Feasible(lim) && n + 2 < TWO_TO_THE_64
    requires v == Next(w, lim, m)
    ensures Healthy(v, lim)
  {
    match m
    case Advance(t) => HealthIgnoresClocks(w, v, lim);
    case PassI(lookup) =>
      PassIKeeps(w, lim, h0, n, lookup);
      HealthIgnoresClocks(SetI(w, Tick(w.i, w.now, lookup)), v, lim);
    case PassR(lookup) =>
      PassRKeeps(w, lim, h0, n, lookup);
      HealthIgnoresClocks(SetR(w, Tick(w.r, w.now, lookup)), v, lim);
    case DeliverR(from) => DeliverRKeeps(w, lim, h0, n, from, v);
    case DeliverI => DeliverIKeeps(w, lim, h0, n);
    case SendI(packet) => SendIKeeps(w, lim, h0, n, packet);
    case SendR(packet) => RSendKeeps(w, lim, h0, n, SendPacket(w.r, packet, w.now, true), packet);
  }

  lemma StepHealthy(w: Duo, lim: Limits, h0: U64, n: nat, m: Beat, v: Duo, top: nat)
    requires Base(w, h0, n) && Timely(w, lim) && Healthy(w, lim) && Feasible(lim) && n + 2 == top < TWO_TO_THE_64
    requires v == Next(w, lim, m)
    ensures Base(v, h0, top) && Timely(v, lim) && Healthy(v, lim)
  {
    BaseNext(w, lim, h0, n, m, v, top);
    TimelyNext(w, lim, m, v);
    NextHealthy(w, lim, h0, n, m, v);
  }

  lemma {:induction false} RunHealthy(w: Duo, lim: Limits, h0: U64, n: nat, ms: seq<Beat>, v: Duo, top: nat)
    requires Base(w, h0, n) && Timely(w, lim) && Healthy(w, lim) && Feasible(lim) && n + 2 * |ms| == top < TWO_TO_THE_64
    requires v == Run(w, lim, ms)
    ensures Base(v, h0, top) && Timely(v, lim) && Healthy(v, lim)
    decreases |ms|
  {
    if ms == [] {
    } else {
      var before, mid := ms[..|ms| - 1], top - 2;
      var u := Run(w, lim, before);
      RunHealthy(w, lim, h0, n, before, u, mid);
      StepHealthy(u, lim, h0, mid, ms[|ms| - 1], v, top);
    }
  }

  /** The initiator has just made its first attempt; the responder's last timer pass was at `pass`. */
  function Begin(a: nat, b: nat, i: Daemon.Startup, r: Daemon.Startup, t: U64, pass: U64): Duo
    requires i.peer.PublicOf? && r.peer.PublicOf?
  {
    var pi := Daemon.BootPeer(a, i);
    var out := pi.session.hist.sealed;
    Duo(a, b, pi, Daemon.BootPeer(b, r), t, t, pass, seq(|out|, k requires 0 <= k < |out| => Flight(t, out[k])), [])
  }

  lemma BeginBase(a: nat, b: nat, i: Daemon.Startup, r: Daemon.Startup, t: U64, pass: U64, n: nat, w: Duo)
    requires a != b && i.owner != r.owner && i.role == Initiator && r.role == Responder
    requires i.peer == PublicOf(Static(b)) && r.peer == PublicOf(Static(a)) && i.lookup.Some?
    requires i.wallClock < n < TWO_TO_THE_64 && r.wallClock < n && w == Begin(a, b, i, r, t, pass)
    ensures Base(w, i.wallClock, n)
  {
    EndToEnd.BootLink(a, b, i, r);
    EndToEnd.BootSession(a, i, n);
    EndToEnd.BootSession(b, r, n);
  }

  lemma BeginHealthy(a: nat, b: nat, i: Daemon.Startup, r: Daemon.Startup, t: U64, pass: U64, lim: Limits, n: nat,
                     w: Duo)
    requires a != b && i.owner != r.owner && i.role == Initiator && r.role == Responder
    requires i.peer == PublicOf(Static(b)) && r.peer == PublicOf(Static(a)) && i.lookup.Some? && i.at == t
    requires r.before <= t
    requires i.wallClock < n < TWO_TO_THE_64 && r.wallClock < n && pass <= t <= pass + lim.loop
    requires w == Begin(a, b, i, r, t, pass)
    ensures Base(w, i.wallClock, n) && Timely(w, lim) && Healthy(w, lim)
  {
    BeginBase(a, b, i, r, t, pass, n, w);
    assert Awaiting(w);
  }

  /** With order kept and nothing lost, loops coming round within G and deliveries within D, where
      5000 + G + D < 15000 and 2 D < 15000: over any number of keepalives and key rotations the
      initiator never takes its peer for dead, and no handshake takes longer than 2 D. */
  lemma NeverTakenForDead(a: nat, b: nat, i: Daemon.Startup, r: Daemon.Startup, t: U64, pass: U64, lim: Limits,
                          ms: seq<Beat>)
    requires a != b && i.owner != r.owner && i.role == Initiator && r.role == Responder
    requires i.peer == PublicOf(Static(b)) && r.peer == PublicOf(Static(a)) && i.lookup.Some? && i.at == t
    requires r.before <= t
    requires Feasible(lim) && pass <= t <= pass + lim.loop
    requires i.wallClock + 1 + 2 * |ms| < TWO_TO_THE_64 && r.wallClock + 1 + 2 * |ms| < TWO_TO_THE_64
    ensures var w := Run(Begin(a, b, i, r, t, pass), lim, ms);
            && !DeadPeer(w.i, w.now)
            && (w.i.session.phase == Pending ==> w.now - w.i.lastRx <= 2 * lim.delay)
  {
    var w := Begin(a, b, i, r, t, pass);
    var n := 1 + if i.wallClock < r.wallClock then r.wallClock else i.wallClock;
    BeginHealthy(a, b, i, r, t, pass, lim, n, w);
    RunHealthy(w, lim, i.wallClock, n, ms, Run(w, lim, ms), n + 2 * |ms|);
    HealthyIsAlive(Run(w, lim, ms), lim);
  }
}
