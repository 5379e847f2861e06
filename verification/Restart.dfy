/**
 Why seeding the handshake counter from the wall clock works: an initiator attempts a handshake at
 most once every 15 s, so its counter falls behind the clock it was seeded from.
 */
module Restart {
  import opened Words
  import opened Terms
  import opened Sessions
  import opened Peers
  import opened Daemon

  predicate IsInit(d: Datagram) {
    d.Datagram? && d.kind == HANDSHAKE_INIT && d.body.Box?
  }

  /** The INITs sealed so far carry counters from `w0` up to the next one, and include `w0`. */
  ghost predicate CountersUsed(s: Session, w0: U64) {
    && w0 <= s.handshakeCounter
    && (forall d | d in s.hist.sealed && IsInit(d) :: w0 <= d.body.counter < s.handshakeCounter)
    && (s.handshakeCounter > w0 ==> exists d :: d in s.hist.sealed && IsInit(d) && d.body.counter == w0)
  }

  /** A session seeded with `w0` at time `t0` has made its last attempt 15 s or more after the one before, and so on. */
  ghost predicate Paced(p: Peer, w0: U64, t0: U64) {
    && p.session.role == Initiator && CountersUsed(p.session, w0) && t0 <= p.lastRx
    && (p.session.handshakeCounter > w0 ==>
          var gap := SESSION_TIMEOUT_MS * (p.session.handshakeCounter - w0 - 1);
          gap <= p.lastRx - t0 && (p.session.phase == Established ==> gap <= p.lastDone - t0))
  }

  /** Room for every attempt that fits in a 64-bit count of milliseconds. */
  const LATEST_SEED: U64 := 0x8000_0000_0000_0000

  lemma AttemptKeepsPace(p: Peer, w0: U64, t0: U64, now: U64, lookup: Option<Endpoint>)
    requires Paced(p, w0, t0) && TimersOk(p, now) && w0 <= LATEST_SEED
    requires p.session.handshakeCounter == w0 || DeadPeer(p, now) || KeysExpired(p, now)
    ensures Paced(Initiate(p, now, lookup), w0, t0)
  {
    var s := StartAndBuild(p.session);
    var init := Datagram(HANDSHAKE_INIT, Box(p.session.staticKeys.tx, p.session.handshakeCounter, Key(s.ephPk)));
    assert s.hist.sealed == p.session.hist.sealed + [init];
    assert forall d | d in p.session.hist.sealed :: d in s.hist.sealed;
    assert s.hist.sealed[|p.session.hist.sealed|] in s.hist.sealed;
  }

  lemma SealKeepsCounters(s: Session, payload: seq<Byte>, w0: U64)
    requires CountersUsed(s, w0)
    ensures CountersUsed(SealData(s, payload, SEALED_BUF_SIZE).s, w0)
  {
    assert forall d | d in s.hist.sealed :: d in SealData(s, payload, SEALED_BUF_SIZE).s.hist.sealed;
  }

  /** What an initiator is sent moves no counter, and its timestamps only forward. */
  lemma DatagramKeepsPace(p: Peer, msg: Datagram, now: U64, sent: bool, written: bool, w0: U64, t0: U64)
    requires Paced(p, w0, t0) && TimersOk(p, now) && msg.Datagram?
    ensures Paced(FromKnown(p, msg, now, sent, written), w0, t0)
  {
  }

  lemma SendKeepsPace(p: Peer, packet: seq<Byte>, now: U64, sent: bool, w0: U64, t0: U64)
    requires Paced(p, w0, t0)
    ensures Paced(SendPacket(p, packet, now, sent), w0, t0)
  {
    SealKeepsCounters(p.session, packet, w0);
  }

  lemma PassKeepsPace(p: Peer, now: U64, lookup: Option<Endpoint>, w0: U64, t0: U64)
    requires Paced(p, w0, t0) && TimersOk(p, now) && w0 <= LATEST_SEED
    ensures Paced(Tick(p, now, lookup), w0, t0)
  {
    SealKeepsCounters(p.session, [], w0);
    var m := Keepalive(p, now);
    if DeadPeer(m, now) || KeysExpired(m, now) {
      AttemptKeepsPace(m, w0, t0, now, lookup);
    }
  }

  lemma StepKeepsPace(n: Node, e: Event, k: nat, q: Peer, w0: U64, t0: U64, t: U64)
    requires k < |n.peers| && PeerStep(n, e, k, q)
    requires Paced(n.peers[k], w0, t0) && TimersOk(n.peers[k], t) && t <= TimeOf(e) && w0 <= LATEST_SEED
    ensures Paced(q, w0, t0)
  {
    var p := n.peers[k];
    match e
    case FromTun(packet, now, sent) => SendKeepsPace(p, packet, now, sent, w0, t0);
    case FromUdp(from, msg, now, sent, written) =>
      if msg.Datagram? {
        DatagramKeepsPace(p, msg, now, sent, written, w0, t0);
      }
    case Timers(now, lookups) =>
      if k < |lookups| {
        PassKeepsPace(p, now, lookups[k], w0, t0);
      }
  }

  lemma {:induction false} RunKeepsPace(n: Node, events: seq<Event>, t: U64, k: nat, w0: U64, t0: U64)
    requires AllTimersOk(n, t) && Clocked(events, t) && k < |n.peers|
    requires Paced(n.peers[k], w0, t0) && w0 <= LATEST_SEED
    ensures var m := Daemon.Run(n, events);
            Paced(m.peers[k], w0, t0) && TimersOk(m.peers[k], LastTime(events, t))
  {
    RunTimers(n, events, t);
    if events == [] {
    } else {
      var before := events[..|events| - 1];
      RunKeepsPace(n, before, t, k, w0, t0);
      var m := Daemon.Run(n, before);
      StepAt(m, events[|events| - 1], k);
      StepKeepsPace(m, events[|events| - 1], k, Step(m, events[|events| - 1]).peers[k], w0, t0, LastTime(before, t));
    }
  }

  lemma BootIsPaced(node: nat, u: Startup)
    requires u.peer.PublicOf? && u.role == Initiator && u.before <= u.at && u.wallClock <= LATEST_SEED
    ensures Paced(BootPeer(node, u), u.wallClock, u.before)
  {
    var p := Peer(Init(u.role, u.owner, node, u.peer, u.wallClock).value, false, Endpoint(0, 0), u.before, 0, 0);
    AttemptKeepsPace(p, u.wallClock, u.before, u.at, u.lookup);
  }

  /** The arithmetic of it: an attempt every 15 s cannot keep up with a clock counting seconds. */
  lemma ClockOutruns(seedMs: nat, restartMs: nat, elapsed: nat, used: nat)
    requires restartMs >= seedMs + elapsed && SESSION_TIMEOUT_MS * used <= elapsed
    requires restartMs / 1000 != seedMs / 1000
    ensures restartMs / 1000 > seedMs / 1000 + used
  {
  }

  /** An initiator that ran from wall-clock time `seedMs` and is started again at `restartMs`, by a
      clock that advanced at least as much as the monotonic one, opens with a counter above every
      one it used before, exactly unless it restarts within the second it first started. */
  lemma RestartIsFresher(n: Node, node: nat, us: seq<Startup>, t: U64, events: seq<Event>, k: nat, seedMs: nat,
                         restartMs: nat, owner: nat)
    requires Booted(n, node, us, t) && Clocked(events, t) && k < |us|
    requires us[k].role == Initiator && us[k].wallClock == seedMs / 1000 <= LATEST_SEED
    requires restartMs / 1000 < TWO_TO_THE_64 && restartMs >= seedMs + (LastTime(events, t) - us[k].before)
    requires exists d :: d in Daemon.Run(n, events).peers[k].session.hist.sealed && IsInit(d)
    ensures var was := Daemon.Run(n, events).peers[k].session;
            var next := StartAndBuild(Init(Initiator, owner, node, us[k].peer, restartMs / 1000).value);
            && |next.hist.sealed| == 1 && IsInit(next.hist.sealed[0])
            && ((forall d | d in was.hist.sealed && IsInit(d) :: d.body.counter < next.hist.sealed[0].body.counter)
                <==> restartMs / 1000 != seedMs / 1000)
  {
    BootedTimers(n, node, us, t);
    BootIsPaced(node, us[k]);
    assert n.peers[k] == BootPeer(node, us[k]);
    RunKeepsPace(n, events, t, k, us[k].wallClock, us[k].before);
    var p := Daemon.Run(n, events).peers[k];
    var used := p.session.handshakeCounter - us[k].wallClock - 1;
    if restartMs / 1000 != seedMs / 1000 {
      ClockOutruns(seedMs, restartMs, LastTime(events, t) - us[k].before, used);
    }
  }

  /** The exception is reachable: started again in the same instant, the initiator repeats its first counter. */
  lemma SameSecondRepeats(n: Node, node: nat, us: seq<Startup>, t: U64, k: nat, seedMs: nat, owner: nat)
    requires Booted(n, node, us, t) && k < |us| && us[k].role == Initiator && us[k].lookup.Some? && us[k].before == t
    requires us[k].wallClock == seedMs / 1000 <= LATEST_SEED
    ensures var was := Daemon.Run(n, []).peers[k].session;
            var next := StartAndBuild(Init(Initiator, owner, node, us[k].peer, seedMs / 1000).value);
            exists d :: d in was.hist.sealed && IsInit(d) && d.body.counter == next.hist.sealed[0].body.counter
  {
    var was := Daemon.Run(n, []).peers[k].session;
    assert n.peers[k] == BootPeer(node, us[k]);
    assert was.hist.sealed[0] in was.hist.sealed && IsInit(was.hist.sealed[0]);
  }
}
