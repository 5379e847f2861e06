/**
 Recovery in bounded time: the pair of module Liveness, in whatever state a bad network has left it, from the
 moment at which the network delivers again.
 */
module BoundedRecovery {
  import opened Words
  import opened Terms
  import opened Sessions
  import opened Peers
  import opened Liveness
  import Links

  /** The initiator's last attempt is lost, and nothing that is under way can answer it. */
  ghost predicate Stalled(w: Duo) {
    && w.i.session.phase == Pending && w.toR == []
    && forall k | 0 <= k < |w.toI| :: w.toI[k].msg.Datagram? && w.toI[k].msg.kind == DATA
  }

  /** Since `t`, the initiator has heard nothing and made no new attempt. */
  ghost predicate Settling(w: Duo, lim: Limits, t: U64) {
    && w.i.lastRx <= t <= w.now <= w.passI + lim.loop && w.passI < t + SESSION_TIMEOUT_MS
    && (Stalled(w) || SteadySince(w, lim, t))
  }

  /** The time by which a silent initiator has made a new attempt. */
  function RetryBy(lim: Limits, t: U64): nat {
    t + SESSION_TIMEOUT_MS + lim.loop
  }

  /** The time by which the two ends have met again. */
  function UpBy(lim: Limits, t: U64): nat {
    RetryBy(lim, t) + 2 * lim.delay
  }

  ghost predicate Recovering(w: Duo, lim: Limits, t: U64) {
    Settling(w, lim, t) || Healthy(w, lim)
  }

  // ---------------------------------------------------------------- beats of a pair that settles

  lemma SettlingIgnoresClocks(w: Duo, v: Duo, lim: Limits, t: U64)
    requires Settling(w, lim, t) && v == w.(now := v.now, passI := v.passI, passR := v.passR)
    requires t <= v.now <= v.passI + lim.loop && v.passI < t + SESSION_TIMEOUT_MS
    ensures Settling(v, lim, t)
  {
    if SteadySince(w, lim, t) {
      assert SteadySince(v, lim, t);
    }
  }

  lemma SilentPass(w: Duo, q: Peer, lim: Limits, t: U64)
    requires Settling(w, lim, t) && Timely(w, lim) && q == Keepalive(w.i, w.now)
    ensures SetI(w, q).i.lastRx == w.i.lastRx && (Stalled(SetI(w, q)) || SteadySince(SetI(w, q), lim, t))
  {
    if Stalled(w) {
      assert Launched(w.i.session, w.i.session, w.now) == [];
      assert SetI(w, q) == w;
    } else {
      assert SteadySince(SetI(w, q), lim, t);
    }
  }

  /** A pass that finds the peer silent for too long, or its keys too old, makes a new attempt. */
  lemma SettlingRetry(w: Duo, lim: Limits, h0: U64, n: nat, q: Peer, lookup: Option<Endpoint>, v: Duo)
    requires Base(w, h0, n) && w.i.resolved && n + 2 < TWO_TO_THE_64
    requires q == Keepalive(w.i, w.now) && (DeadPeer(q, w.now) || KeysExpired(q, w.now))
    requires v == Next(w, lim, PassI(lookup))
    ensures Healthy(v, lim)
  {
    AttemptAwaits(w, q, lookup, h0);
    HealthIgnoresClocks(SetI(w, Initiate(q, w.now, lookup)), v, lim);
  }

  lemma PassLeavesSettling(w: Duo, u: Duo, v: Duo, lim: Limits, t: U64)
    requires Settling(w, lim, t) && u.i.lastRx == w.i.lastRx && (Stalled(u) || SteadySince(u, lim, t))
    requires u.now == w.now && w.now < t + SESSION_TIMEOUT_MS && v == u.(passI := w.now)
    ensures Settling(v, lim, t)
  {
    if SteadySince(u, lim, t) {
      assert SteadySince(v, lim, t);
    }
  }

  lemma SettlingPassI(w: Duo, lim: Limits, h0: U64, n: nat, t: U64, lookup: Option<Endpoint>)
    requires Base(w, h0, n) && Timely(w, lim) && Settling(w, lim, t) && n + 2 < TWO_TO_THE_64
    ensures Recovering(Next(w, lim, PassI(lookup)), lim, t)
  {
    var q := Keepalive(w.i, w.now);
    var v := Next(w, lim, PassI(lookup));
    if DeadPeer(q, w.now) || KeysExpired(q, w.now) {
      SettlingRetry(w, lim, h0, n, q, lookup, v);
    } else {
      SilentPass(w, q, lim, t);
      PassLeavesSettling(w, SetI(w, q), v, lim, t);
    }
  }

  lemma StalledSend(w: Duo, p: Peer, payload: seq<Byte>)
    requires Stalled(w) && p.session == SealData(w.r.session, payload, SEALED_BUF_SIZE).s
    ensures Stalled(SetR(w, p))
  {
    var o := SealData(w.r.session, payload, SEALED_BUF_SIZE);
    if o.reply.Sent? {
      assert p.session.hist.sealed[|w.r.session.hist.sealed|..] == [o.reply.msg];
    }
  }

  lemma SettlingRSends(w: Duo, lim: Limits, h0: U64, n: nat, t: U64, p: Peer, payload: seq<Byte>)
    requires Base(w, h0, n) && Timely(w, lim) && Settling(w, lim, t) && n + 2 < TWO_TO_THE_64
    requires p.session == SealData(w.r.session, payload, SEALED_BUF_SIZE).s
    requires SealData(w.r.session, payload, SEALED_BUF_SIZE).reply.Sent? ==> p.lastTx == w.now
    requires SealData(w.r.session, payload, SEALED_BUF_SIZE).reply.Refused? ==> p == w.r
    ensures Settling(SetR(w, p), lim, t)
  {
    if Stalled(w) {
      StalledSend(w, p, payload);
    } else if SealData(w.r.session, payload, SEALED_BUF_SIZE).reply.Sent? {
      FlowingSend(w, lim, p, payload, 0, t);
      assert SteadySince(SetR(w, p), lim, t);
    } else {
      assert Launched(w.r.session, w.r.session, w.now) == [];
      assert SetR(w, p) == w;
    }
  }

  lemma SettlingPassR(w: Duo, lim: Limits, h0: U64, n: nat, t: U64, lookup: Option<Endpoint>)
    requires Base(w, h0, n) && Timely(w, lim) && Settling(w, lim, t) && n + 2 < TWO_TO_THE_64
    ensures Settling(Next(w, lim, PassR(lookup)), lim, t)
  {
    var p := Tick(w.r, w.now, lookup);
    assert p == Keepalive(w.r, w.now);
    if p == w.r {
      assert Launched(w.r.session, w.r.session, w.now) == [];
      assert SetR(w, p) == w;
    } else {
      SettlingRSends(w, lim, h0, n, t, p, []);
    }
    SettlingIgnoresClocks(SetR(w, p), Next(w, lim, PassR(lookup)), lim, t);
  }

  lemma SettlingDeliverR(w: Duo, lim: Limits, h0: U64, n: nat, t: U64, from: Endpoint)
    requires Base(w, h0, n) && Timely(w, lim) && Settling(w, lim, t)
    ensures Settling(Next(w, lim, DeliverR(from)), lim, t)
  {
    if w.toR != [] {
      ArriveQuiet(w, h0, n, from);
      assert Next(w, lim, DeliverR(from)).toI == w.toI;
      assert SteadySince(Next(w, lim, DeliverR(from)), lim, t);
    }
  }

  lemma StalledDeliverI(w: Duo, lim: Limits, h0: U64, n: nat)
    requires Base(w, h0, n) && Timely(w, lim) && Stalled(w) && w.toI != []
    ensures Next(w, lim, DeliverI) == w.(toI := w.toI[1..]) && Stalled(Next(w, lim, DeliverI))
  {
    assert Arrive(w.i, w.i.addr, w.toI[0].msg, w.now) == w.i;
    assert Launched(w.i.session, w.i.session, w.now) == [];
  }

  lemma SettlingDeliverI(w: Duo, lim: Limits, h0: U64, n: nat, t: U64)
    requires Base(w, h0, n) && Timely(w, lim) && Settling(w, lim, t)
    ensures Recovering(Next(w, lim, DeliverI), lim, t)
  {
    if w.toI != [] {
      if Stalled(w) {
        StalledDeliverI(w, lim, h0, n);
      } else {
        DataArrives(w, lim, h0, n, t);
      }
    }
  }

  lemma SettlingSendI(w: Duo, lim: Limits, t: U64, packet: seq<Byte>)
    requires Timely(w, lim) && Settling(w, lim, t)
    ensures Settling(Next(w, lim, SendI(packet)), lim, t)
  {
    var p := SendPacket(w.i, packet, w.now, true);
    if Stalled(w) {
      assert p == w.i && Launched(w.i.session, w.i.session, w.now) == [];
      assert SetI(w, p) == w;
    } else {
      assert SteadySince(SetI(w, p), lim, t);
    }
  }

  lemma SettlingNext(w: Duo, lim: Limits, h0: U64, n: nat, t: U64, m: Beat, v: Duo)
    requires Base(w, h0, n) && Timely(w, lim) && Settling(w, lim, t) && n + 2 < TWO_TO_THE_64 && v == Next(w, lim, m)
    ensures Recovering(v, lim, t)
  {
    match m
    case Advance(_) => SettlingIgnoresClocks(w, v, lim, t);
    case PassI(lookup) => SettlingPassI(w, lim, h0, n, t, lookup);
    case PassR(lookup) => SettlingPassR(w, lim, h0, n, t, lookup);
    case DeliverR(from) => SettlingDeliverR(w, lim, h0, n, t, from);
    case DeliverI => SettlingDeliverI(w, lim, h0, n, t);
    case SendI(packet) => SettlingSendI(w, lim, t, packet);
    case SendR(packet) => SettlingRSends(w, lim, h0, n, t, SendPacket(w.r, packet, w.now, true), packet);
  }

  // ---------------------------------------------------------------- when the handshake is done

  /** Both ends are established under each other's keys. */
  ghost predicate InUse(w: Duo) {
    w.i.session.phase == Established && w.r.session.phase == Established
        && Mirrored(w.i.session.dataKeys, w.r.session.dataKeys)
  }

  /** At some moment of the run, not after `deadline`, the pair was in use. */
  ghost predicate InUseBy(w: Duo, lim: Limits, ms: seq<Beat>, deadline: nat) {
    || (InUse(Liveness.Run(w, lim, ms)) && Liveness.Run(w, lim, ms).now <= deadline)
    || (ms != [] && InUseBy(w, lim, ms[..|ms| - 1], deadline))
  }

  lemma EstablishedInUse(w: Duo, h0: U64, n: nat)
    requires Base(w, h0, n) && w.i.session.phase == Established
    ensures InUse(w)
  {
  }

  /** Nothing but a timer pass and an arrival touches an initiator whose handshake is pending. */
  lemma PendingUntouched(w: Duo, lim: Limits, m: Beat)
    requires w.i.session.phase == Pending && !m.PassI? && !m.DeliverI?
    ensures Next(w, lim, m).i == w.i
  {
  }

  lemma PendingArrival(w: Duo, lim: Limits)
    requires w.i.session.phase == Pending && w.i.session.role == Initiator && w.i.resolved
    ensures var v := Next(w, lim, DeliverI);
        v.now == w.now && (v.i.session.phase == Pending ==> v.i.lastRx == w.i.lastRx)
  {
  }

  lemma PendingPassI(w: Duo, lim: Limits, t: U64, lookup: Option<Endpoint>)
    requires Timely(w, lim) && Feasible(lim) && Recovering(w, lim, t) && w.i.session.phase == Pending
    requires w.i.lastRx <= RetryBy(lim, t)
    ensures var v := Next(w, lim, PassI(lookup)); v.i.session.phase == Pending && v.i.lastRx <= RetryBy(lim, t)
  {
    if !Settling(w, lim, t) {
      HealthyIsAlive(w, lim);
    }
  }

  lemma PendingDeliverI(w: Duo, lim: Limits, t: U64, h0: U64, n: nat, v: Duo, top: nat)
    requires Base(w, h0, n) && Timely(w, lim) && Feasible(lim) && Recovering(w, lim, t) && w.i.session.phase == Pending
    requires w.i.lastRx <= RetryBy(lim, t) && v == Next(w, lim, DeliverI) && Base(v, h0, top)
    ensures (v.i.session.phase == Pending && v.i.lastRx <= RetryBy(lim, t)) || (InUse(v) && v.now <= UpBy(lim, t))
  {
    if Settling(w, lim, t) {
      if w.toI != [] {
        StalledDeliverI(w, lim, h0, n);
      }
    } else {
      HealthyIsAlive(w, lim);
      PendingArrival(w, lim);
      if v.i.session.phase == Established {
        EstablishedInUse(v, h0, top);
      }
    }
  }

  lemma PendingStep(w: Duo, lim: Limits, t: U64, h0: U64, n: nat, m: Beat, v: Duo, top: nat)
    requires Base(w, h0, n) && Timely(w, lim) && Feasible(lim) && Recovering(w, lim, t) && w.i.session.phase == Pending
    requires w.i.lastRx <= RetryBy(lim, t) && v == Next(w, lim, m) && Base(v, h0, top)
    ensures (v.i.session.phase == Pending && v.i.lastRx <= RetryBy(lim, t)) || (InUse(v) && v.now <= UpBy(lim, t))
  {
    if m.PassI? {
      PendingPassI(w, lim, t, m.lookup);
    } else if m.DeliverI? {
      PendingDeliverI(w, lim, t, h0, n, v, top);
    } else {
      PendingUntouched(w, lim, m);
    }
  }

  // ---------------------------------------------------------------- every run

  /** The pair has been in use in time, or its pending attempt was made in time. */
  ghost predicate InTime(w: Duo, lim: Limits, ms: seq<Beat>, v: Duo, t: U64) {
    InUseBy(w, lim, ms, UpBy(lim, t)) || (v.i.session.phase == Pending && v.i.lastRx <= RetryBy(lim, t))
  }

  lemma StepSettling(w: Duo, lim: Limits, t: U64, h0: U64, n: nat, m: Beat, v: Duo, top: nat)
    requires Base(w, h0, n) && Timely(w, lim) && Settling(w, lim, t) && n + 2 == top < TWO_TO_THE_64
    requires v == Next(w, lim, m)
    ensures Base(v, h0, top) && Timely(v, lim) && Recovering(v, lim, t)
  {
    BaseNext(w, lim, h0, n, m, v, top);
    TimelyNext(w, lim, m, v);
    SettlingNext(w, lim, h0, n, t, m, v);
  }

  lemma StepRecovers(w: Duo, lim: Limits, t: U64, h0: U64, n: nat, m: Beat, v: Duo, top: nat)
    requires Base(w, h0, n) && Timely(w, lim) && Recovering(w, lim, t) && Feasible(lim) && n + 2 == top < TWO_TO_THE_64
    requires v == Next(w, lim, m)
    ensures Base(v, h0, top) && Timely(v, lim) && Recovering(v, lim, t)
  {
    if Healthy(w, lim) {
      StepHealthy(w, lim, h0, n, m, v, top);
    } else {
      StepSettling(w, lim, t, h0, n, m, v, top);
    }
  }

  lemma {:induction false} RunRecovers(w: Duo, lim: Limits, t: U64, h0: U64, n: nat, ms: seq<Beat>, v: Duo, top: nat)
    requires Base(w, h0, n) && Timely(w, lim) && Recovering(w, lim, t) && Feasible(lim)
    requires n + 2 * |ms| == top < TWO_TO_THE_64 && v == Liveness.Run(w, lim, ms) && InTime(w, lim, [], w, t)
    ensures Base(v, h0, top) && Timely(v, lim) && Recovering(v, lim, t) && InTime(w, lim, ms, v, t)
    decreases |ms|
  {
    if ms == [] {
    } else {
      var before, mid := ms[..|ms| - 1], top - 2;
      var u := Liveness.Run(w, lim, before);
      RunRecovers(w, lim, t, h0, n, before, u, mid);
      StepRecovers(u, lim, t, h0, mid, ms[|ms| - 1], v, top);
      if !InUseBy(w, lim, before, UpBy(lim, t)) {
        PendingStep(u, lim, t, h0, mid, ms[|ms| - 1], v, top);
      }
    }
  }

  /** The network delivers again: what was under way is lost, the loops come round, the initiator knows where its
      peer is, and a responder that has answered knows that too and has sent its keepalives. */
  ghost predicate Resumes(w: Duo, lim: Limits) {
    && w.toR == [] && w.toI == [] && w.i.resolved && TimersOk(w.i, w.now) && TimersOk(w.r, w.now)
    && w.passI <= w.now <= w.passI + lim.loop && w.passR <= w.now <= w.passR + lim.loop
    && (w.r.session.phase == Established ==> w.r.resolved && w.passR < w.r.lastTx + KEEPALIVE_INTERVAL_MS)
  }

  lemma ResumedSettles(w: Duo, lim: Limits, h0: U64, n: nat)
    requires Links.LinkInv(LinkOf(w), h0) && Bounded(w.i.session, n) && Bounded(w.r.session, n)
    requires w.i.session.handshakeCounter > h0 && Resumes(w, lim)
    ensures Base(w, h0, n) && Timely(w, lim) && Settling(w, lim, w.now) && InTime(w, lim, [], w, w.now)
  {
    if w.i.session.phase == Established {
      Links.AcceptedWasSent(LinkOf(w), h0);
      assert SteadySince(w, lim, w.now);
    }
  }

  /** A run from w has led to v: the two ends have met in time, and from then on meet in time after every rotation. */
  ghost predicate Recovered(w: Duo, lim: Limits, ms: seq<Beat>, v: Duo) {
    && (v.now > UpBy(lim, w.now) ==> InUseBy(w, lim, ms, UpBy(lim, w.now)))
    && (v.now >= RetryBy(lim, w.now) ==>
          !DeadPeer(v.i, v.now) && (v.i.session.phase == Pending ==> v.now - v.i.lastRx <= 2 * lim.delay))
    && (v.i.session.phase == Established ==> InUse(v))
  }

  lemma InTimeIsRecovered(w: Duo, lim: Limits, h0: U64, ms: seq<Beat>, v: Duo, top: nat)
    requires Base(v, h0, top) && Timely(v, lim) && Recovering(v, lim, w.now) && InTime(w, lim, ms, v, w.now)
    requires Feasible(lim)
    ensures Recovered(w, lim, ms, v)
  {
    if v.i.session.phase == Established {
      EstablishedInUse(v, h0, top);
    }
    if v.now >= RetryBy(lim, w.now) {
      HealthyIsAlive(v, lim);
    }
  }

  lemma RecoveredAfter(w: Duo, lim: Limits, h0: U64, n: nat, ms: seq<Beat>, v: Duo, top: nat)
    requires Base(w, h0, n) && Timely(w, lim) && Settling(w, lim, w.now) && InTime(w, lim, [], w, w.now)
    requires Feasible(lim)
    requires n + 2 * |ms| == top < TWO_TO_THE_64 && v == Liveness.Run(w, lim, ms)
    ensures Recovered(w, lim, ms, v)
  {
    RunRecovers(w, lim, w.now, h0, n, ms, v, top);
    InTimeIsRecovered(w, lim, h0, ms, v, top);
  }

  lemma RecoversFrom(w: Duo, lim: Limits, h0: U64, n: nat, ms: seq<Beat>, v: Duo, top: nat)
    requires Links.LinkInv(LinkOf(w), h0) && Bounded(w.i.session, n) && Bounded(w.r.session, n)
    requires w.i.session.handshakeCounter > h0 && Resumes(w, lim) && Feasible(lim)
    requires n + 2 * |ms| == top < TWO_TO_THE_64 && v == Liveness.Run(w, lim, ms)
    ensures Recovered(w, lim, ms, v)
  {
    ResumedSettles(w, lim, h0, n);
    RecoveredAfter(w, lim, h0, n, ms, v, top);
  }

  /** What any run of the link leaves behind. */
  lemma ReachedLink(a: nat, b: nat, iOwner: nat, rOwner: nat, iClock: U64, rClock: U64, moves: seq<Links.Move>,
                    l: Links.Link, n: nat, top: nat)
    requires Links.Startable(a, b, iOwner, rOwner, iClock, rClock, |moves|)
    requires l == Links.Run(Links.Open(a, b, iOwner, rOwner, iClock, rClock), moves)
    requires n == (if iClock < rClock then rClock else iClock) && top == n + |moves|
    ensures Links.LinkInv(l, iClock) && Bounded(l.i, top) && Bounded(l.r, top)
  {
    Links.OpenKeeps(a, b, iOwner, rOwner, iClock, rClock);
    Links.RunKeeps(Links.Open(a, b, iOwner, rOwner, iClock, rClock), iClock, moves, n);
  }

  /** Whatever a network has done to two sessions, from the moment t on at which datagrams are delivered in order
      within D and the loops come round within G: by t + 15000 + G + 2 D both ends have been established under each
      other's keys; and from t + 15000 + G on the initiator never takes its peer for dead, no handshake takes longer
      than 2 D, and an established initiator has the responder's keys. */
  lemma RecoversInBoundedTime(a: nat, b: nat, iOwner: nat, rOwner: nat, iClock: U64, rClock: U64,
                              moves: seq<Links.Move>, w: Duo, lim: Limits, ms: seq<Beat>)
    requires Links.Startable(a, b, iOwner, rOwner, iClock, rClock, |moves| + 2 * |ms|)
    requires LinkOf(w) == Links.Run(Links.Open(a, b, iOwner, rOwner, iClock, rClock), moves)
    requires w.i.session.handshakeCounter > iClock && Resumes(w, lim) && Feasible(lim)
    ensures Recovered(w, lim, ms, Liveness.Run(w, lim, ms))
  {
    var n := if iClock < rClock then rClock else iClock;
    var mid := n + |moves|;
    ReachedLink(a, b, iOwner, rOwner, iClock, rClock, moves, LinkOf(w), n, mid);
    RecoversFrom(w, lim, iClock, mid, ms, Liveness.Run(w, lim, ms), mid + 2 * |ms|);
  }
}
