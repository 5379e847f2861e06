/** The daemon's poll loop over all its peers, one event at a time. */
module Daemon {
  import opened Words
  import opened Terms
  import opened Sessions
  import opened Peers
  import Routing

  /** A packet written to the TUN device, and the peer it came from. */
  datatype Write = Write(peer: nat, packet: seq<Byte>)

  /** The peers with their AllowedIPs, and what has passed through the TUN device so far. */
  datatype Node = Node(table: Routing.Table, peers: seq<Peer>, tunIn: seq<seq<Byte>>, tunOut: seq<Write>)

  datatype Event =
    | FromTun(packet: seq<Byte>, now: U64, sent: bool)
    | FromUdp(from: Endpoint, msg: Datagram, now: U64, sent: bool, written: bool)
    | Timers(now: U64, lookups: seq<Option<Endpoint>>)

  predicate KnownAt(p: Peer, from: Endpoint) {
    p.resolved && p.addr == from
  }

  /** No peer is known at this address. */
  ghost predicate UnknownAddress(peers: seq<Peer>, from: Endpoint) {
    forall j | 0 <= j < |peers| :: !KnownAt(peers[j], from)
  }

  /** Peer k is known at this address, and none before it is. */
  ghost predicate KnownFirst(peers: seq<Peer>, from: Endpoint, k: nat) {
    k < |peers| && KnownAt(peers[k], from) && forall j | 0 <= j < k :: !KnownAt(peers[j], from)
  }

  /** find_peer_by_addr, from index `k` on. */
  function FindByAddr(peers: seq<Peer>, from: Endpoint, k: nat): (index: Option<nat>)
    requires k <= |peers|
    ensures index.Some? ==> k <= index.value < |peers| && peers[index.value].resolved && peers[index.value].addr == from
    ensures index.Some? ==> forall j | k <= j < index.value :: !(peers[j].resolved && peers[j].addr == from)
    ensures index.None? ==> forall j | k <= j < |peers| :: !(peers[j].resolved && peers[j].addr == from)
    decreases |peers| - k
  {
    if k == |peers| then None
    else if peers[k].resolved && peers[k].addr == from then Some(k)
    else FindByAddr(peers, from, k + 1)
  }

  /** The search attributes a datagram to the first peer known at its address. */
  lemma FindsFirst(peers: seq<Peer>, from: Endpoint)
    ensures FindByAddr(peers, from, 0).None? <==> UnknownAddress(peers, from)
    ensures forall k: nat :: FindByAddr(peers, from, 0) == Some(k) <==> KnownFirst(peers, from, k)
  {
    var found := FindByAddr(peers, from, 0);
    if found.Some? {
      assert KnownAt(peers[found.value], from);
      assert KnownFirst(peers, from, found.value);
    }
  }

  datatype Search = Search(peers: seq<Peer>, found: Option<nat>)

  function WithSession(peers: seq<Peer>, k: nat, s: Session): seq<Peer>
    requires k < |peers|
  {
    peers[k := peers[k].(session := s)]
  }

  /** find_responder_for_init, from index `k` on: each responder session is tried in turn. */
  function FindResponder(peers: seq<Peer>, msg: Datagram, k: nat): (r: Search)
    requires k <= |peers|
    ensures |r.peers| == |peers| && (r.found.Some? ==> k <= r.found.value < |peers|)
    decreases |peers| - k
  {
    if k == |peers| then Search(peers, None)
    else if peers[k].session.role != Responder then FindResponder(peers, msg, k + 1)
    else
      var o := HandleInit(peers[k].session, msg, HANDSHAKE_MSG_LEN);
      var tried := WithSession(peers, k, o.s);
      if o.reply.Sent? then Search(tried, Some(k)) else FindResponder(tried, msg, k + 1)
  }

  /** A HANDSHAKE_INIT from an address no peer is known at; the address is learned once the answer is sent. */
  function FromStranger(peers: seq<Peer>, from: Endpoint, msg: Datagram, now: U64, sent: bool): (r: seq<Peer>)
    ensures |r| == |peers|
  {
    var r := FindResponder(peers, msg, 0);
    if r.found.None? || !sent then r.peers
    else
      var k := r.found.value;
      r.peers[k := r.peers[k].(addr := from, resolved := true, lastRx := now, lastTx := now, lastDone := now)]
  }

  /** A datagram for a peer whose address is known. */
  function FromKnown(p: Peer, msg: Datagram, now: U64, sent: bool, written: bool): Peer
    requires msg.Datagram?
  {
    if msg.kind == HANDSHAKE_INIT && p.session.role == Responder then AnswerInit(p, msg, now, sent)
    else if msg.kind == HANDSHAKE_RESPONSE && p.session.role == Initiator then TakeResponse(p, msg, now)
    else if msg.kind == DATA then TakeData(p, msg, now, written)
    else p
  }

  /** What the datagram makes the daemon write to the TUN device. */
  function WrittenBy(p: Peer, k: nat, msg: Datagram, written: bool): seq<Write>
    requires msg.Datagram?
  {
    var o := OpenData(p.session, msg, MAX_PACKET_SIZE);
    if msg.kind == DATA && o.reply.Received? && o.reply.payload != [] && written then [Write(k, o.reply.payload)]
        else []
  }

  function OnTun(n: Node, packet: seq<Byte>, now: U64, sent: bool): Node {
    match Routing.RoutePacket(n.table, packet)
    case None => n.(tunIn := n.tunIn + [packet])
    case Some(k) =>
      if k >= |n.peers| then n.(tunIn := n.tunIn + [packet])
      else n.(peers := n.peers[k := SendPacket(n.peers[k], packet, now, sent)], tunIn := n.tunIn + [packet])
  }

  function OnUdp(n: Node, from: Endpoint, msg: Datagram, now: U64, sent: bool, written: bool): Node {
    if msg.Empty? then n
    else match FindByAddr(n.peers, from, 0)
      case None =>
        if msg.kind == HANDSHAKE_INIT then n.(peers := FromStranger(n.peers, from, msg, now, sent)) else n
      case Some(k) =>
        n.(peers := n.peers[k := FromKnown(n.peers[k], msg, now, sent, written)],
           tunOut := n.tunOut + WrittenBy(n.peers[k], k, msg, written))
  }

  function TickAll(peers: seq<Peer>, now: U64, lookups: seq<Option<Endpoint>>): seq<Peer>
    requires |lookups| == |peers|
  {
    seq(|peers|, k requires 0 <= k < |peers| => Tick(peers[k], now, lookups[k]))
  }

  function Step(n: Node, e: Event): (m: Node)
    ensures |m.peers| == |n.peers| && m.table == n.table
  {
    match e
    case FromTun(packet, now, sent) => OnTun(n, packet, now, sent)
    case FromUdp(from, msg, now, sent, written) => OnUdp(n, from, msg, now, sent, written)
    case Timers(now, lookups) => if |lookups| == |n.peers| then n.(peers := TickAll(n.peers, now, lookups)) else n
  }

  function Run(n: Node, events: seq<Event>): (m: Node)
    ensures |m.peers| == |n.peers| && m.table == n.table
  {
    if events == [] then n else Step(Run(n, events[..|events| - 1]), events[|events| - 1])
  }

  // ---------------------------------------------------------------- starting up

  /** One [Peer] section, and what the start-up of its session observes: the wall clock, the
      monotonic clock before and at the first handshake attempt, and the answer of DNS. */
  datatype Startup = Startup(role: Role, owner: nat, peer: PublicKey, wallClock: U64, before: U64, at: U64,
                             lookup: Option<Endpoint>)

  function BootPeer(node: nat, u: Startup): Peer
    requires u.peer.PublicOf?
  {
    var p := Peer(Init(u.role, u.owner, node, u.peer, u.wallClock).value, false, Endpoint(0, 0), u.before, 0, 0);
    if u.role == Initiator then Initiate(p, u.at, u.lookup) else p
  }

  /** The daemon as it enters its loop at time `t`; it does so only with usable peer keys. */
  ghost predicate Booted(n: Node, node: nat, us: seq<Startup>, t: U64) {
    && |n.peers| == |n.table| == |us| && n.tunIn == [] && n.tunOut == []
    && forall k | 0 <= k < |us| ::
        us[k].peer.PublicOf? && us[k].before <= us[k].at <= t && n.peers[k] == BootPeer(node, us[k])
  }

  function TimeOf(e: Event): U64 {
    e.now
  }

  /** The monotonic clock never goes back. */
  ghost predicate Clocked(events: seq<Event>, t: U64) {
    && (forall k | 0 <= k < |events| :: t <= TimeOf(events[k]))
    && (forall j, k | 0 <= j < k < |events| :: TimeOf(events[j]) <= TimeOf(events[k]))
  }

  function LastTime(events: seq<Event>, t: U64): U64 {
    if events == [] then t else TimeOf(events[|events| - 1])
  }

  // ---------------------------------------------------------------- one event, seen from one peer

  /** Trying a HANDSHAKE_INIT around touches only the sessions of responders. */
  lemma {:induction false} FindResponderFrame(peers: seq<Peer>, msg: Datagram, k: nat, j: nat)
    requires k <= |peers| && j < |peers|
    ensures var r := FindResponder(peers, msg, k);
            && r.peers[j] == peers[j].(session := r.peers[j].session)
            && (r.peers[j].session == peers[j].session ||
                (j >= k && peers[j].session.role == Responder &&
                 r.peers[j].session == HandleInit(peers[j].session, msg, HANDSHAKE_MSG_LEN).s))
            && (r.found == Some(j) ==> r.peers[j].session == HandleInit(peers[j].session, msg, HANDSHAKE_MSG_LEN).s
                                       && peers[j].session.role == Responder)
    decreases |peers| - k
  {
    if k == |peers| {
    } else {
      if peers[k].session.role != Responder {
        FindResponderFrame(peers, msg, k + 1, j);
      } else {
        var o := HandleInit(peers[k].session, msg, HANDSHAKE_MSG_LEN);
        var tried := WithSession(peers, k, o.s);
        if !o.reply.Sent? {
          FindResponderFrame(tried, msg, k + 1, j);
        }
      }
    }
  }

  /** The first responder that accepts the message answers it, and no other session is touched. */
  lemma {:induction false} FindResponderFinds(peers: seq<Peer>, msg: Datagram, k: nat, target: nat)
    requires k <= target < |peers| && peers[target].session.role == Responder
    requires HandleInit(peers[target].session, msg, HANDSHAKE_MSG_LEN).reply.Sent?
    requires forall j | k <= j < target && peers[j].session.role == Responder ::
               !InitAccepted(peers[j].session, msg, HANDSHAKE_MSG_LEN)
    ensures FindResponder(peers, msg, k) ==
              Search(WithSession(peers, target, HandleInit(peers[target].session, msg, HANDSHAKE_MSG_LEN).s),
                     Some(target))
    decreases target - k
  {
    if k == target {
    } else {
      FindResponderFinds(peers, msg, k + 1, target);
      if peers[k].session.role == Responder {
        assert WithSession(peers, k, peers[k].session) == peers;
      }
    }
  }

  /** Everything an event can do to one peer. */
  predicate PeerStep(n: Node, e: Event, k: nat, q: Peer)
    requires k < |n.peers|
  {
    var p := n.peers[k];
    || q == p
    || match e
       case FromTun(packet, now, sent) => Routing.RoutePacket(n.table, packet) == Some(k)
           && q == SendPacket(p, packet, now, sent)
       case FromUdp(from, msg, now, sent, written) =>
         msg.Datagram? &&
         (|| (p.resolved && p.addr == from && q == FromKnown(p, msg, now, sent, written))
          || (msg.kind == HANDSHAKE_INIT && p.session.role == Responder &&
              var s := HandleInit(p.session, msg, HANDSHAKE_MSG_LEN).s;
              || q == p.(session := s)
              || q == Peer(s, true, from, now, now, now)))
       case Timers(now, lookups) => k < |lookups| && q == Tick(p, now, lookups[k])
  }

  lemma StepAt(n: Node, e: Event, k: nat)
    requires k < |n.peers|
    ensures PeerStep(n, e, k, Step(n, e).peers[k])
  {
    if FromStrangerEvent(n, e) {
      FindResponderFrame(n.peers, e.msg, 0, k);
    }
  }

  predicate SameIdentity(s: Session, t: Session) {
    t.role == s.role && t.owner == s.owner && t.staticKeys == s.staticKeys
  }

  lemma CallKeepsRole(s: Session, c: Call)
    ensures SameIdentity(s, Do(s, c).s)
  {
  }

  lemma PassKeepsRole(p: Peer, now: U64, lookup: Option<Endpoint>)
    ensures SameIdentity(p.session, Tick(p, now, lookup).session)
  {
  }

  lemma DatagramKeepsRole(p: Peer, msg: Datagram, now: U64, sent: bool, written: bool)
    requires msg.Datagram?
    ensures SameIdentity(p.session, FromKnown(p, msg, now, sent, written).session)
  {
    CallKeepsRole(p.session, HandleInitCall(msg, HANDSHAKE_MSG_LEN));
    CallKeepsRole(p.session, HandleResponseCall(msg));
    CallKeepsRole(p.session, OpenDataCall(msg, MAX_PACKET_SIZE));
  }

  lemma PeerStepKeepsRole(n: Node, e: Event, k: nat, q: Peer)
    requires k < |n.peers| && PeerStep(n, e, k, q)
    ensures q.session.role == n.peers[k].session.role && q.session.owner == n.peers[k].session.owner
    ensures q.session.staticKeys == n.peers[k].session.staticKeys
  {
    var p := n.peers[k];
    match e
    case FromTun(packet, _, _) => CallKeepsRole(p.session, SealDataCall(packet, SEALED_BUF_SIZE));
    case FromUdp(from, msg, now, sent, written) =>
      if msg.Datagram? {
        DatagramKeepsRole(p, msg, now, sent, written);
        CallKeepsRole(p.session, HandleInitCall(msg, HANDSHAKE_MSG_LEN));
      }
    case Timers(now, lookups) =>
      if k < |lookups| {
        PassKeepsRole(p, now, lookups[k]);
      }
  }

  lemma PeerStepTimers(n: Node, e: Event, k: nat, q: Peer, t: U64)
    requires k < |n.peers| && PeerStep(n, e, k, q)
    requires TimersOk(n.peers[k], t) && t <= TimeOf(e)
    ensures TimersOk(q, TimeOf(e))
  {
    if e.Timers? && k < |e.lookups| {
      TickIsPunctual(n.peers[k], e.now, e.lookups[k]);
    }
  }

  // ---------------------------------------------------------------- timers over every run

  ghost predicate AllTimersOk(n: Node, t: U64) {
    forall k | 0 <= k < |n.peers| :: TimersOk(n.peers[k], t)
  }

  lemma {:induction false} RunTimers(n: Node, events: seq<Event>, t: U64)
    requires AllTimersOk(n, t) && Clocked(events, t)
    ensures AllTimersOk(Run(n, events), LastTime(events, t))
  {
    if events == [] {
    } else {
      var before, e := events[..|events| - 1], events[|events| - 1];
      RunTimers(n, before, t);
      var m := Run(n, before);
      forall k | 0 <= k < |Step(m, e).peers| ensures TimersOk(Step(m, e).peers[k], TimeOf(e)) {
        StepAt(m, e, k);
        PeerStepTimers(m, e, k, Step(m, e).peers[k], LastTime(before, t));
      }
    }
  }

  lemma BootedTimers(n: Node, node: nat, us: seq<Startup>, t: U64)
    requires Booted(n, node, us, t)
    ensures AllTimersOk(n, t)
  {
    forall k | 0 <= k < |n.peers| ensures TimersOk(n.peers[k], t) {
      assert n.peers[k] == BootPeer(node, us[k]);
    }
  }

  /** A sweep is the last thing that happened. */
  ghost predicate JustSwept(n: Node, events: seq<Event>) {
    events != [] && events[|events| - 1].Timers? && |events[|events| - 1].lookups| == |n.peers|
  }

  lemma SweepIsPunctual(n: Node, e: Event, m: Node, t: U64, k: nat)
    requires AllTimersOk(n, t) && t <= TimeOf(e) && e.Timers? && |e.lookups| == |n.peers| && m == Step(n, e)
    requires k < |n.peers|
    ensures Punctual(m.peers[k], e.now)
  {
    TickIsPunctual(n.peers[k], e.now, e.lookups[k]);
  }

  lemma RunIsPunctual(n: Node, events: seq<Event>, t: U64, k: nat, v: Node)
    requires AllTimersOk(n, t) && Clocked(events, t) && JustSwept(n, events) && k < |n.peers| && v == Run(n, events)
    ensures Punctual(v.peers[k], LastTime(events, t))
  {
    var before := events[..|events| - 1];
    RunTimers(n, before, t);
    SweepIsPunctual(Run(n, before), events[|events| - 1], v, LastTime(before, t), k);
  }

  /** No timestamp is ahead of the clock, so the subtractions on unsigned words are true differences. */
  predicate TrueDifferences(p: Peer, now: U64) {
    && p.lastRx <= now && p.lastTx <= now && p.lastDone <= now
    && Sub64(now, p.lastRx) == now - p.lastRx && Sub64(now, p.lastTx) == now - p.lastTx
    && Sub64(now, p.lastDone) == now - p.lastDone
  }

  lemma TimersHoldAt(n: Node, events: seq<Event>, t: U64, v: Node, now: U64, k: nat)
    requires AllTimersOk(n, t) && Clocked(events, t) && k < |n.peers| && v == Run(n, events)
    requires now == LastTime(events, t)
    requires AllTimersOk(v, now)
    ensures TrueDifferences(v.peers[k], now) && (JustSwept(n, events) ==> Punctual(v.peers[k], now))
  {
    TickIsPunctual(v.peers[k], now, None);
    if JustSwept(n, events) {
      RunIsPunctual(n, events, t, k, v);
    }
  }

  /** On every run: no timestamp is ever ahead of the clock, so the unsigned subtractions of the
      timer pass are true differences; and each pass leaves every initiator heard from within 15 s,
      its keys younger than 45 s, and every reachable established peer sent to within 5 s. */
  lemma TimersHold(n: Node, node: nat, us: seq<Startup>, t: U64, events: seq<Event>)
    requires Booted(n, node, us, t) && Clocked(events, t)
    ensures var m, now := Run(n, events), LastTime(events, t);
            forall k | 0 <= k < |m.peers| ::
              TrueDifferences(m.peers[k], now) && (JustSwept(n, events) ==> Punctual(m.peers[k], now))
  {
    BootedTimers(n, node, us, t);
    RunTimers(n, events, t);
    var m, now := Run(n, events), LastTime(events, t);
    forall k | 0 <= k < |m.peers|
      ensures TrueDifferences(m.peers[k], now) && (JustSwept(n, events) ==> Punctual(m.peers[k], now))
    {
      TimersHoldAt(n, events, t, m, now, k);
    }
  }

  // ---------------------------------------------------------------- learned endpoints

  /** No two responder relationships are known at the same address. */
  ghost predicate EndpointsDistinct(peers: seq<Peer>) {
    forall j, k | 0 <= j < k < |peers| && peers[j].session.role == Responder && peers[k].session.role == Responder ::
      !(peers[j].resolved && peers[k].resolved && peers[j].addr == peers[k].addr)
  }

  lemma StrangerKeepsEndpoints(n: Node, from: Endpoint, msg: Datagram, now: U64, sent: bool)
    requires EndpointsDistinct(n.peers) && FindByAddr(n.peers, from, 0).None?
    ensures EndpointsDistinct(FromStranger(n.peers, from, msg, now, sent))
  {
    forall k | 0 <= k < |n.peers| ensures SameOrLearned(n, from, msg, now, sent, k) {
      FindResponderFrame(n.peers, msg, 0, k);
    }
    var qs := FromStranger(n.peers, from, msg, now, sent);
    forall j, k | 0 <= j < k < |qs| && qs[j].session.role == Responder && qs[k].session.role == Responder
      ensures !(qs[j].resolved && qs[k].resolved && qs[j].addr == qs[k].addr)
    {
      assert SameOrLearned(n, from, msg, now, sent, j) && SameOrLearned(n, from, msg, now, sent, k);
    }
  }

  ghost predicate SameOrLearned(n: Node, from: Endpoint, msg: Datagram, now: U64, sent: bool, k: nat)
    requires k < |n.peers|
  {
    var q := FromStranger(n.peers, from, msg, now, sent)[k];
    && q.session.role == n.peers[k].session.role
    && (|| (q.resolved == n.peers[k].resolved && q.addr == n.peers[k].addr)
        || (FindResponder(n.peers, msg, 0).found == Some(k) && q.addr == from))
  }

  predicate FromStrangerEvent(n: Node, e: Event) {
    e.FromUdp? && e.msg.Datagram? && e.msg.kind == HANDSHAKE_INIT && FindByAddr(n.peers, e.from, 0).None?
  }

  lemma OtherStepsKeepEndpoint(n: Node, e: Event, k: nat)
    requires k < |n.peers| && !FromStrangerEvent(n, e)
    ensures var q := Step(n, e).peers[k];
            && q.session.role == n.peers[k].session.role
            && (q.session.role == Responder ==> q.resolved == n.peers[k].resolved && q.addr == n.peers[k].addr)
  {
  }

  lemma StepKeepsEndpoints(n: Node, e: Event)
    requires EndpointsDistinct(n.peers)
    ensures EndpointsDistinct(Step(n, e).peers)
  {
    if FromStrangerEvent(n, e) {
      StrangerKeepsEndpoints(n, e.from, e.msg, e.now, e.sent);
    } else {
      var qs := Step(n, e).peers;
      forall j, k | 0 <= j < k < |qs| && qs[j].session.role == Responder && qs[k].session.role == Responder
        ensures !(qs[j].resolved && qs[k].resolved && qs[j].addr == qs[k].addr)
      {
        OtherStepsKeepEndpoint(n, e, j);
        OtherStepsKeepEndpoint(n, e, k);
      }
    }
  }

  /** On every run the endpoints learned by responder relationships stay pairwise distinct, so the
      source address of a datagram names at most one of them. */
  lemma {:induction false} LearnedEndpointsDistinct(n: Node, node: nat, us: seq<Startup>, t: U64, events: seq<Event>)
    requires Booted(n, node, us, t)
    ensures EndpointsDistinct(Run(n, events).peers)
  {
    if events == [] {
      assert forall k | 0 <= k < |n.peers| :: n.peers[k] == BootPeer(node, us[k]);
    } else {
      LearnedEndpointsDistinct(n, node, us, t, events[..|events| - 1]);
      StepKeepsEndpoints(Run(n, events[..|events| - 1]), events[|events| - 1]);
    }
  }
}
