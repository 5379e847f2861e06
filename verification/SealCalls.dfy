/**
 Every call of the cipher that a daemon makes, whatever becomes of the message: read off the state before each event,
 apart from what the sessions remember.
 */
module SealCalls {
  import opened Words
  import opened Terms
  import opened Sessions
  import opened Peers
  import opened Daemon
  import opened Attribution
  import opened Effects
  import Duplicates
  import EndToEnd
  import Routing

  /** Relationship k answers the datagram of this event. */
  ghost predicate AnswersEvent(n: Node, e: Event, k: nat)
    requires k < |n.peers|
  {
    && e.FromUdp? && Answers(n.peers[k].session, e.msg)
    && (KnownFirst(n.peers, e.from, k) || (UnknownAddress(n.peers, e.from) && FirstToAnswer(n.peers, e.msg, k)))
  }

  /** What an event makes the daemon seal on behalf of relationship k. */
  ghost function Calls(n: Node, e: Event, k: nat): seq<Datagram>
    requires k < |n.peers|
  {
    var p := n.peers[k];
    match e
    case FromTun(packet, _, _) =>
      var dest := Routing.ParseDest(packet);
      var routed := dest.Some? && Routing.IsFirstMatch(n.table, dest.value, k);
      if routed && p.session.phase == Established && |packet| <= 2048 then [DataBox(p.session, packet)] else []
    case FromUdp(_, msg, _, _, _) => if AnswersEvent(n, e, k) then [AnswerBox(p.session, msg.body.counter)] else []
    case Timers(now, lookups) =>
      if |lookups| != |n.peers| then []
      else (if KeepaliveDue(p, now) then [DataBox(p.session, [])] else [])
             + (if AttemptDue(p, now) && (p.resolved || lookups[k].Some?) then [InitBox(p.session)] else [])
  }

  ghost function BootCalls(node: nat, u: Startup): seq<Datagram>
    requires u.peer.PublicOf?
  {
    if u.role == Initiator && u.lookup.Some? then [InitBox(FirstSession(node, u))] else []
  }

  /** All the calls on behalf of relationship k, from the start of the daemon on. */
  ghost function CallLog(n: Node, node: nat, u: Startup, events: seq<Event>, k: nat): seq<Datagram>
    requires k < |n.peers| && u.peer.PublicOf?
  {
    if events == [] then BootCalls(node, u)
    else
      var before, e := events[..|events| - 1], events[|events| - 1];
      CallLog(n, node, u, before, k) + Calls(Daemon.Run(n, before), e, k)
  }

  // ---------------------------------------------------------------- the sessions remember every call

  lemma TunCalls(n: Node, e: Event, k: nat, m: Node)
    requires k < |n.peers| && e.FromTun? && m == Step(n, e)
    ensures m.peers[k].session.hist.sealed == n.peers[k].session.hist.sealed + Calls(n, e, k)
  {
    TunEffect(n, e.packet, e.now, e.sent, m);
  }

  lemma ReceivedCalls(p: Peer, q: Peer, msg: Datagram, now: U64, sent: bool, written: bool)
    requires Receives(p, q, msg, now, sent, written)
    ensures q.session.hist.sealed == p.session.hist.sealed
              + if Answers(p.session, msg) then [AnswerBox(p.session, msg.body.counter)] else []
  {
  }

  lemma KnownCalls(n: Node, e: Event, k: nat, f: nat, m: Node)
    requires k < |n.peers| && e.FromUdp? && e.msg.Datagram? && KnownFirst(n.peers, e.from, f) && m == Step(n, e)
    ensures m.peers[k].session.hist.sealed == n.peers[k].session.hist.sealed + Calls(n, e, k)
  {
    KnownEffect(n, e.from, e.msg, e.now, e.sent, e.written, f, m);
    ReceivedCalls(n.peers[f], m.peers[f], e.msg, e.now, e.sent, e.written);
    if k != f {
      assert !KnownFirst(n.peers, e.from, k) && !UnknownAddress(n.peers, e.from);
    }
  }

  lemma StrangerCalls(n: Node, e: Event, k: nat, m: Node)
    requires k < |n.peers| && FromStrangerEvent(n, e) && m == Step(n, e)
    ensures m.peers[k].session.hist.sealed == n.peers[k].session.hist.sealed + Calls(n, e, k)
  {
    FindsFirst(n.peers, e.from);
    if j: nat :| FirstToAnswer(n.peers, e.msg, j) {
      StrangerEffect(n, e.from, e.msg, e.now, e.sent, e.written, j);
    } else {
      NobodyAnswers(n.peers, e.msg, |n.peers|);
      UnansweredEffect(n, e.from, e.msg, e.now, e.sent, e.written, m);
    }
  }

  lemma UdpCalls(n: Node, e: Event, k: nat, m: Node)
    requires k < |n.peers| && e.FromUdp? && m == Step(n, e)
    ensures m.peers[k].session.hist.sealed == n.peers[k].session.hist.sealed + Calls(n, e, k)
  {
    FindsFirst(n.peers, e.from);
    if FromStrangerEvent(n, e) {
      StrangerCalls(n, e, k, m);
    } else if e.msg.Empty? || FindByAddr(n.peers, e.from, 0).None? {
      DropEffect(n, e.from, e.msg, e.now, e.sent, e.written);
    } else {
      KnownCalls(n, e, k, FindByAddr(n.peers, e.from, 0).value, m);
    }
  }

  lemma TimerCalls(n: Node, e: Event, k: nat, m: Node)
    requires k < |n.peers| && e.Timers? && AllTimersOk(n, e.now) && m == Step(n, e)
    ensures m.peers[k].session.hist.sealed == n.peers[k].session.hist.sealed + Calls(n, e, k)
  {
    if |e.lookups| == |n.peers| {
      PassSeals(n.peers[k], e.now, e.lookups[k]);
    }
  }

  lemma EventCalls(n: Node, e: Event, k: nat, m: Node)
    requires k < |n.peers| && AllTimersOk(n, TimeOf(e)) && m == Step(n, e)
    ensures m.peers[k].session.hist.sealed == n.peers[k].session.hist.sealed + Calls(n, e, k)
  {
    match e
    case FromTun(_, _, _) => TunCalls(n, e, k, m);
    case FromUdp(_, _, _, _, _) => UdpCalls(n, e, k, m);
    case Timers(_, _) => TimerCalls(n, e, k, m);
  }

  /** After every run, what a session remembers to have sealed is every call that was made for it, in order, whether
      the message was sent or not: none is ever forgotten, so none can be repeated unnoticed. */
  lemma {:induction false} CallsAreRemembered(n: Node, node: nat, us: seq<Startup>, t: U64, events: seq<Event>, k: nat)
    requires Booted(n, node, us, t) && Clocked(events, t) && k < |us|
    ensures Daemon.Run(n, events).peers[k].session.hist.sealed == CallLog(n, node, us[k], events, k)
  {
    if events == [] {
      assert n.peers[k] == BootPeer(node, us[k]);
      BootEffect(node, us[k]);
    } else {
      var before, e := events[..|events| - 1], events[|events| - 1];
      CallsAreRemembered(n, node, us, t, before, k);
      BootedTimers(n, node, us, t);
      RunTimers(n, before, t);
      var u := Daemon.Run(n, before);
      assert AllTimersOk(u, TimeOf(e));
      EventCalls(u, e, k, Step(u, e));
    }
  }

  // ---------------------------------------------------------------- no call twice

  ghost predicate Apart(a: seq<Datagram>, b: seq<Datagram>) {
    forall d, e | d in a && e in b :: !SameNonce(d, e)
  }

  /** No two calls, of one relationship or of two, use one key and counter. */
  ghost predicate CallsUnique(n: Node, node: nat, us: seq<Startup>, events: seq<Event>)
    requires |n.peers| == |us| && forall k | 0 <= k < |us| :: us[k].peer.PublicOf?
  {
    && (forall k | 0 <= k < |us| :: NoNonceReuse(CallLog(n, node, us[k], events, k)))
    && (forall j, k | 0 <= j < k < |us| ::
          Apart(CallLog(n, node, us[j], events, j), CallLog(n, node, us[k], events, k)))
  }

  lemma CallsUniqueIsNonces(n: Node, node: nat, us: seq<Startup>, t: U64, events: seq<Event>)
    requires Booted(n, node, us, t) && Clocked(events, t)
    ensures CallsUnique(n, node, us, events) <==> Duplicates.NoncesUnique(Daemon.Run(n, events))
  {
    var v := Daemon.Run(n, events);
    forall k | 0 <= k < |us| ensures v.peers[k].session.hist.sealed == CallLog(n, node, us[k], events, k) {
      CallsAreRemembered(n, node, us, t, events, k);
    }
    forall j, k | 0 <= j < k < |us|
      ensures Apart(CallLog(n, node, us[j], events, j), CallLog(n, node, us[k], events, k))
         <==> Duplicates.SealApart(v.peers[j].session, v.peers[k].session)
    {
      assert v.peers[j].session.hist.sealed == CallLog(n, node, us[j], events, j);
      assert v.peers[k].session.hist.sealed == CallLog(n, node, us[k], events, k);
    }
  }

  /** No key and counter are ever passed to the cipher twice, sends that fail included, on any run of a daemon, if and
      only if no two of its sections have one role and name one key. */
  lemma CallsUniqueIff(n: Node, node: nat, us: seq<Startup>, t: U64, m: nat)
    requires Booted(n, node, us, t) && Duplicates.OwnersDistinct(us) && EndToEnd.ClocksBelow(us, m)
    requires t + 15000 * (m + 1) < TWO_TO_THE_64 && 3 * m + 4 < TWO_TO_THE_64
    ensures (forall events | Clocked(events, t) && m + 2 * |events| < TWO_TO_THE_64 :: CallsUnique(n, node, us, events))
       <==> Duplicates.SectionsDistinct(us)
  {
    forall events | Clocked(events, t)
      ensures CallsUnique(n, node, us, events) <==> Duplicates.NoncesUnique(Daemon.Run(n, events))
    {
      CallsUniqueIsNonces(n, node, us, t, events);
    }
    Duplicates.NoncesUniqueIff(n, node, us, t, m);
  }
}
