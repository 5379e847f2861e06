/**
 Two sessions and the network between them. The network may lose, duplicate, delay and reorder
 what the two ends seal, and may deliver anything else that is not sealed under a key made only of
 their secrets.
 */
module Links {
  import opened Words
  import opened Terms
  import opened Sessions

  /** `i` runs on node `a` and starts handshakes, `r` runs on node `b` and answers them. */
  datatype Link = Link(a: nat, b: nat, i: Session, r: Session)

  function Open(a: nat, b: nat, iOwner: nat, rOwner: nat, iClock: U64, rClock: U64): Link {
    Link(a, b, Init(Initiator, iOwner, a, PublicOf(Static(b)), iClock).value,
               Init(Responder, rOwner, b, PublicOf(Static(a)), rClock).value)
  }

  /** A secret of node `node`, or of the session that draws as `owner`. */
  predicate SecretOf(x: Secret, node: nat, owner: nat) {
    x == Static(node) || (x.Ephemeral? && x.owner == owner)
  }

  /** A key of this link: of an exchange between the initiator's side as client and the responder's as
      server. Only someone holding one of the two secrets of an exchange can compute its keys. */
  predicate LinkKey(l: Link, key: SessionKey) {
    && key.client.PublicOf? && key.server.PublicOf?
    && SecretOf(key.client.secret, l.a, l.i.owner) && SecretOf(key.server.secret, l.b, l.r.owner)
    && key.shared == {key.client.secret, key.server.secret}
  }

  /** What the network can hand to either end. */
  predicate Available(l: Link, d: Datagram) {
    d.Datagram? && d.body.Box? && LinkKey(l, d.body.key) ==> d in l.i.hist.sealed || d in l.r.hist.sealed
  }

  datatype Move =
    | Initiate                // session_start_handshake, then session_build_init, as initiate_handshake does
    | AtInitiator(call: Call)
    | AtResponder(call: Call)

  /** The daemon makes these calls on its own initiative or with a datagram off the network. */
  predicate Enabled(l: Link, c: Call) {
    match c
    case StartCall => false
    case BuildInitCall(_) => false
    case HandleInitCall(msg, _) => Available(l, msg)
    case HandleResponseCall(msg) => Available(l, msg)
    case SealDataCall(_, _) => true
    case OpenDataCall(msg, _) => Available(l, msg)
  }

  function Next(l: Link, m: Move): Link {
    match m
    case Initiate => l.(i := StartAndBuild(l.i))
    case AtInitiator(c) => if Enabled(l, c) then l.(i := Do(l.i, c).s) else l
    case AtResponder(c) => if Enabled(l, c) then l.(r := Do(l.r, c).s) else l
  }

  function Run(l: Link, moves: seq<Move>): Link {
    if moves == [] then l else Next(Run(l, moves[..|moves| - 1]), moves[|moves| - 1])
  }

  // ---------------------------------------------------------------- the invariant

  function InitiatorKeys(ie: Secret, re: Secret): KeyPair {
    Derive(Initiator, PublicOf(ie), ie, PublicOf(re)).value
  }

  function ResponderKeys(ie: Secret, re: Secret): KeyPair {
    Derive(Responder, PublicOf(re), re, PublicOf(ie)).value
  }

  ghost predicate Fixed(l: Link) {
    && l.a != l.b && l.i.owner != l.r.owner
    && l.i.role == Initiator && l.r.role == Responder
    && l.i.staticKeys == InitiatorKeys(Static(l.a), Static(l.b))
    && l.r.staticKeys == ResponderKeys(Static(l.a), Static(l.b))
  }

  /** The INIT that carries the pending counter carries the current ephemeral key. */
  ghost predicate InitsOk(l: Link, h0: U64) {
    && h0 <= l.i.handshakeCounter
    && (l.i.handshakeCounter > h0 ==> l.i.pendingCounter + 1 == l.i.handshakeCounter)
    && (forall d | d in l.i.hist.sealed && SealedUnder(d, l.i.staticKeys.tx) ::
          h0 <= d.body.counter && (d.body.counter == l.i.pendingCounter ==> d.body.plain == Key(l.i.ephPk)))
  }

  /** The initiator's half of the responder's data keys. */
  function AnsweredEphemeral(l: Link): PublicKey {
    l.r.dataKeys.rx.client
  }

  /** The responder is established once it has answered; its keys pair its current ephemeral with
      an ephemeral of the initiator, the current one if it answered the pending INIT. */
  ghost predicate ResponderOk(l: Link, h0: U64)
    requires l.r.ephPk.PublicOf?
  {
    && (l.r.haveSeen <==> l.r.phase == Established)
    && (forall d | d in l.r.hist.sealed && SealedUnder(d, l.r.staticKeys.tx) && d.body.counter == l.r.highestSeen ::
          d.body.plain == Key(l.r.ephPk))
    && (l.r.phase == Established ==>
          && h0 <= l.r.highestSeen < l.i.handshakeCounter
          && AnsweredEphemeral(l).PublicOf? && AnsweredEphemeral(l).secret.Ephemeral?
          && AnsweredEphemeral(l).secret.owner == l.i.owner
          && l.r.dataKeys == ResponderKeys(AnsweredEphemeral(l).secret, l.r.ephPk.secret)
          && (l.r.highestSeen == l.i.pendingCounter ==> AnsweredEphemeral(l) == l.i.ephPk))
  }

  /** The two ends hold each other's keys. */
  ghost predicate InStep(l: Link) {
    && l.r.phase == Established
    && l.r.highestSeen == l.i.pendingCounter
    && Mirrored(l.i.dataKeys, l.r.dataKeys)
  }

  ghost predicate LinkInv(l: Link, h0: U64) {
    && Fixed(l) && Inv(l.i) && Inv(l.r) && InitsOk(l, h0) && ResponderOk(l, h0)
    && (l.i.phase == Established ==> l.i.handshakeCounter > h0 && InStep(l))
    && (forall d | d in l.i.hist.delivered :: d in l.r.hist.sealed)
    && (forall d | d in l.r.hist.delivered :: d in l.i.hist.sealed)
  }

  lemma OpenKeeps(a: nat, b: nat, iOwner: nat, rOwner: nat, iClock: U64, rClock: U64)
    requires a != b && iOwner != rOwner
    ensures LinkInv(Open(a, b, iOwner, rOwner, iClock, rClock), iClock)
  {
  }

  lemma InitiateKeeps(l: Link, h0: U64, n: nat)
    requires LinkInv(l, h0) && Bounded(l.i, n) && n + 1 < TWO_TO_THE_64
    ensures LinkInv(Next(l, Initiate), h0)
  {
    StartKeeps(l.i);
    BuildInitKeeps(Start(l.i), SEALED_BUF_SIZE, n);
  }

  lemma InitiatorMoveKeeps(l: Link, h0: U64, c: Call, n: nat)
    requires LinkInv(l, h0) && Bounded(l.i, n) && n + 1 < TWO_TO_THE_64
    ensures LinkInv(Next(l, AtInitiator(c)), h0)
  {
    DoKeeps(l.i, c, n);
  }

  lemma AnswerKeeps(l: Link, h0: U64, d: Datagram, outLen: nat)
    requires LinkInv(l, h0) && Available(l, d)
    ensures LinkInv(l.(r := HandleInit(l.r, d, outLen).s), h0)
  {
    HandleInitKeeps(l.r, d, outLen);
    if InitAccepted(l.r, d, outLen) {
      assert d in l.i.hist.sealed;
    }
  }

  lemma ResponderMoveKeeps(l: Link, h0: U64, c: Call, n: nat)
    requires LinkInv(l, h0) && Bounded(l.r, n) && n + 1 < TWO_TO_THE_64
    ensures LinkInv(Next(l, AtResponder(c)), h0)
  {
    if c.HandleInitCall? {
      if Enabled(l, c) {
        AnswerKeeps(l, h0, c.msg, c.outLen);
      }
    } else {
      DoKeeps(l.r, c, n);
    }
  }

  lemma NextBounded(l: Link, m: Move, n: nat)
    requires Bounded(l.i, n) && Bounded(l.r, n) && n + 1 < TWO_TO_THE_64
    ensures Bounded(Next(l, m).i, n + 1) && Bounded(Next(l, m).r, n + 1)
  {
  }

  lemma NextKeeps(l: Link, h0: U64, m: Move, n: nat)
    requires LinkInv(l, h0) && Bounded(l.i, n) && Bounded(l.r, n) && n + 1 < TWO_TO_THE_64
    ensures LinkInv(Next(l, m), h0) && Bounded(Next(l, m).i, n + 1) && Bounded(Next(l, m).r, n + 1)
  {
    NextBounded(l, m, n);
    match m
    case Initiate => InitiateKeeps(l, h0, n);
    case AtInitiator(c) => InitiatorMoveKeeps(l, h0, c, n);
    case AtResponder(c) => ResponderMoveKeeps(l, h0, c, n);
  }

  lemma {:induction false} RunKeeps(l: Link, h0: U64, moves: seq<Move>, n: nat)
    requires LinkInv(l, h0) && Bounded(l.i, n) && Bounded(l.r, n) && n + |moves| < TWO_TO_THE_64
    ensures var e := Run(l, moves);
            LinkInv(e, h0) && Bounded(e.i, n + |moves|) && Bounded(e.r, n + |moves|)
  {
    if moves == [] {
    } else {
      var before := moves[..|moves| - 1];
      RunKeeps(l, h0, before, n);
      NextKeeps(Run(l, before), h0, moves[|moves| - 1], n + |before|);
    }
  }

  // ---------------------------------------------------------------- the theorems

  /** A link as it starts, with clocks that leave the counters room for `steps` moves. */
  ghost predicate Startable(a: nat, b: nat, iOwner: nat, rOwner: nat, iClock: U64, rClock: U64, steps: nat) {
    a != b && iOwner != rOwner && iClock + steps < TWO_TO_THE_64 && rClock + steps < TWO_TO_THE_64
  }

  lemma ReachableInv(a: nat, b: nat, iOwner: nat, rOwner: nat, iClock: U64, rClock: U64, moves: seq<Move>)
    requires Startable(a, b, iOwner, rOwner, iClock, rClock, |moves|)
    ensures LinkInv(Run(Open(a, b, iOwner, rOwner, iClock, rClock), moves), iClock)
  {
    OpenKeeps(a, b, iOwner, rOwner, iClock, rClock);
    RunKeeps(Open(a, b, iOwner, rOwner, iClock, rClock), iClock, moves, if iClock < rClock then rClock else iClock);
  }

  /** In every reachable state, an established initiator has an established responder that
      answered exactly its pending INIT and holds the mirror image of its keys. */
  lemma Agreement(a: nat, b: nat, iOwner: nat, rOwner: nat, iClock: U64, rClock: U64, moves: seq<Move>)
    requires Startable(a, b, iOwner, rOwner, iClock, rClock, |moves|)
    ensures var l := Run(Open(a, b, iOwner, rOwner, iClock, rClock), moves);
            l.i.phase == Established ==>
              && l.r.phase == Established && l.r.highestSeen == l.i.pendingCounter
              && l.i.dataKeys.tx == l.r.dataKeys.rx && l.i.dataKeys.rx == l.r.dataKeys.tx
  {
    ReachableInv(a, b, iOwner, rOwner, iClock, rClock, moves);
  }

  /** Over a whole run, re-handshakes included, each end hands up a given box at most once, and
      only boxes (key, counter and payload together) that the other end sealed. */
  lemma DeliveredOnceAndAuthentic(a: nat, b: nat, iOwner: nat, rOwner: nat, iClock: U64, rClock: U64, moves: seq<Move>)
    requires Startable(a, b, iOwner, rOwner, iClock, rClock, |moves|)
    ensures var l := Run(Open(a, b, iOwner, rOwner, iClock, rClock), moves);
            && Distinct(l.i.hist.delivered) && (forall d | d in l.i.hist.delivered :: d in l.r.hist.sealed)
            && Distinct(l.r.hist.delivered) && (forall d | d in l.r.hist.delivered :: d in l.i.hist.sealed)
  {
    ReachableInv(a, b, iOwner, rOwner, iClock, rClock, moves);
    var l := Run(Open(a, b, iOwner, rOwner, iClock, rClock), moves);
    assert forall d | d in l.i.hist.delivered + l.r.hist.delivered :: SameNonce(d, d);
  }

  /** No key and counter are ever used for two seals, by the same end or by different ends. */
  lemma NoncesUniqueOnLink(a: nat, b: nat, iOwner: nat, rOwner: nat, iClock: U64, rClock: U64, moves: seq<Move>)
    requires Startable(a, b, iOwner, rOwner, iClock, rClock, |moves|)
    ensures var l := Run(Open(a, b, iOwner, rOwner, iClock, rClock), moves);
            NoNonceReuse(l.i.hist.sealed + l.r.hist.sealed)
  {
    ReachableInv(a, b, iOwner, rOwner, iClock, rClock, moves);
    var l := Run(Open(a, b, iOwner, rOwner, iClock, rClock), moves);
    var all := l.i.hist.sealed + l.r.hist.sealed;
    forall j, k | 0 <= j < k < |all| ensures !SameNonce(all[j], all[k]) {
      if j < |l.i.hist.sealed| <= k {
        assert SealedOk(l.i, all[j]) && SealedOk(l.r, all[k]);
      }
    }
  }

  function Last<T>(s: seq<T>): T
    requires s != []
  {
    s[|s| - 1]
  }

  /** One handshake, nothing lost. */
  function Handshake(l: Link): Link {
    var l1 := Next(l, Initiate);
    if l1.i.hist.sealed == [] then l1
    else
      var l2 := Next(l1, AtResponder(HandleInitCall(Last(l1.i.hist.sealed), HANDSHAKE_MSG_LEN)));
      if l2.r.hist.sealed == [] then l2
      else Next(l2, AtInitiator(HandleResponseCall(Last(l2.r.hist.sealed))))
  }

  /** In e, both ends hold mirrored keys that neither end of l has held, with nothing sent or received under them. */
  ghost predicate Renewed(l: Link, e: Link) {
    && e.i.phase == Established && e.r.phase == Established
    && Mirrored(e.i.dataKeys, e.r.dataKeys)
    && (forall ep | ep in l.i.hist.epochs :: ep.keys != e.i.dataKeys)
    && (forall ep | ep in l.r.hist.epochs :: ep.keys != e.r.dataKeys)
    && e.i.txCounter == 0 && e.r.txCounter == 0 && e.i.accepted == {} && e.r.accepted == {}
  }

  /** One undisturbed handshake from l renews both ends. */
  ghost predicate Recovers(l: Link) {
    Renewed(l, Handshake(l))
  }

  /** An INIT just sent is new to the responder, which answers it. */
  lemma InitAnswered(l: Link, h0: U64, n: nat)
    requires LinkInv(l, h0) && Bounded(l.i, n) && n + 1 < TWO_TO_THE_64
    ensures var i := StartAndBuild(l.i);
            && i.hist.sealed != [] && i.handshakeCounter > h0
            && var init := Last(i.hist.sealed);
            && InitAccepted(l.r, init, HANDSHAKE_MSG_LEN)
            && Available(l.(i := i), init)
            && var r := HandleInit(l.r, init, HANDSHAKE_MSG_LEN).s;
            && r.phase == Established && r.highestSeen == i.pendingCounter && r.txCounter == 0 && r.accepted == {}
            && i.phase == Pending && i.txCounter == 0 && i.accepted == {}
            && r.hist.sealed ==
                l.r.hist.sealed + [Datagram(HANDSHAKE_RESPONSE, Box(l.r.staticKeys.tx, i.pendingCounter, Key(r.ephPk)))]
            && (forall ep | ep in l.r.hist.epochs :: ep.keys != r.dataKeys)
            && (forall ep | ep in l.i.hist.epochs :: ep.eph != i.ephPk && OwnPk(Initiator, ep.keys.tx) == ep.eph)
  {
    var i := StartAndBuild(l.i);
    assert Last(i.hist.sealed) in i.hist.sealed;
  }

  /** The answer to the pending INIT establishes the initiator. */
  lemma ResponseTaken(l: Link, h0: U64, n: nat)
    requires LinkInv(l, h0) && l.i.phase == Pending && l.r.phase == Established && l.r.highestSeen == l.i.pendingCounter
    requires l.i.handshakeCounter > h0 && l.r.hist.sealed != []
    requires Last(l.r.hist.sealed) ==
        Datagram(HANDSHAKE_RESPONSE, Box(l.r.staticKeys.tx, l.i.pendingCounter, Key(l.r.ephPk)))
    requires Bounded(l.i, n) && n + 1 < TWO_TO_THE_64
    ensures var resp := Last(l.r.hist.sealed);
            && Available(l, resp) && HandleResponse(l.i, resp).reply.Done?
            && var i := HandleResponse(l.i, resp).s;
            && i.phase == Established && Mirrored(i.dataKeys, l.r.dataKeys)
                && i.ephPk == OwnPk(Initiator, i.dataKeys.tx)
            && i.txCounter == l.i.txCounter && i.accepted == l.i.accepted && i.ephPk == l.i.ephPk
  {
    var resp := Last(l.r.hist.sealed);
    assert resp in l.r.hist.sealed;
    InitiatorMoveKeeps(l, h0, HandleResponseCall(resp), n);
  }

  /** What one handshake does, part by part. */
  lemma HandshakeIs(l: Link, h0: U64, n: nat, k: Link, init: Datagram, r: Session)
    requires LinkInv(l, h0) && Bounded(l.i, n) && n + 1 < TWO_TO_THE_64
    requires k == l.(i := StartAndBuild(l.i)) && k.i.hist.sealed != [] && init == Last(k.i.hist.sealed)
    requires r == HandleInit(l.r, init, HANDSHAKE_MSG_LEN).s
    ensures init in k.i.hist.sealed && init.Datagram? && init.kind == HANDSHAKE_INIT && init.body.Box?
    ensures LinkKey(k, init.body.key) && k.i.phase == Pending && k.i.role == Initiator && k.r.role == Responder
    ensures HandleInit(l.r, init, HANDSHAKE_MSG_LEN).reply.Sent? && r.hist.sealed != []
    ensures var response := Last(r.hist.sealed);
            && |r.hist.sealed| == |l.r.hist.sealed| + 1 && response in r.hist.sealed
            && response.Datagram? && response.kind == HANDSHAKE_RESPONSE
            && Handshake(l) == k.(r := r, i := HandleResponse(k.i, response).s)
  {
    InitAnswered(l, h0, n);
    var response := Last(r.hist.sealed);
    assert response in r.hist.sealed && init in k.i.hist.sealed;
    assert Next(k, AtResponder(HandleInitCall(init, HANDSHAKE_MSG_LEN))) == k.(r := r);
    assert Available(k.(r := r), response);
  }

  lemma HandshakeFrame(l: Link)
    requires l.i.role == Initiator
    ensures var e := Handshake(l);
            && e.a == l.a && e.b == l.b && e.i.owner == l.i.owner && e.r.owner == l.r.owner
            && e.i.pendingCounter == l.i.handshakeCounter
  {
  }

  lemma HandshakeKeeps(l: Link, h0: U64, n: nat)
    requires LinkInv(l, h0) && Bounded(l.i, n) && Bounded(l.r, n) && n + 3 < TWO_TO_THE_64
    ensures LinkInv(Handshake(l), h0)
  {
    var l1 := Next(l, Initiate);
    NextKeeps(l, h0, Initiate, n);
    if l1.i.hist.sealed != [] {
      var m2 := AtResponder(HandleInitCall(Last(l1.i.hist.sealed), HANDSHAKE_MSG_LEN));
      var l2 := Next(l1, m2);
      NextKeeps(l1, h0, m2, n + 1);
      if l2.r.hist.sealed != [] {
        NextKeeps(l2, h0, AtInitiator(HandleResponseCall(Last(l2.r.hist.sealed))), n + 2);
      }
    }
  }

  /** With the INIT answered, the link is ready for the response. */
  lemma AnswerReady(l: Link, h0: U64, n: nat, k: Link, init: Datagram, m: Link)
    requires LinkInv(l, h0) && Bounded(l.i, n) && n + 1 < TWO_TO_THE_64
    requires k == l.(i := StartAndBuild(l.i)) && k.i.hist.sealed != [] && init == Last(k.i.hist.sealed)
    requires m == k.(r := HandleInit(l.r, init, HANDSHAKE_MSG_LEN).s)
    ensures LinkInv(m, h0) && Bounded(m.i, n + 1)
  {
    InitiateKeeps(l, h0, n);
    InitAnswered(l, h0, n);
    AnswerKeeps(k, h0, init, HANDSHAKE_MSG_LEN);
  }

  lemma Recovery(l: Link, h0: U64, n: nat)
    requires LinkInv(l, h0) && Bounded(l.i, n) && Bounded(l.r, n) && n + 3 < TWO_TO_THE_64
    ensures Recovers(l)
  {
    InitAnswered(l, h0, n);
    var k := l.(i := StartAndBuild(l.i));
    var init := Last(k.i.hist.sealed);
    var m := k.(r := HandleInit(l.r, init, HANDSHAKE_MSG_LEN).s);
    AnswerReady(l, h0, n, k, init, m);
    HandshakeIs(l, h0, n, k, init, m.r);
    ResponseTaken(m, h0, n + 1);
  }

  /** From every state of every run, one undisturbed handshake recovers the link. */
  lemma RecoveryFromAnyRun(a: nat, b: nat, iOwner: nat, rOwner: nat, iClock: U64, rClock: U64, moves: seq<Move>)
    requires Startable(a, b, iOwner, rOwner, iClock, rClock, |moves| + 3)
    ensures Recovers(Run(Open(a, b, iOwner, rOwner, iClock, rClock), moves))
  {
    var n := if iClock < rClock then rClock else iClock;
    OpenKeeps(a, b, iOwner, rOwner, iClock, rClock);
    RunKeeps(Open(a, b, iOwner, rOwner, iClock, rClock), iClock, moves, n);
    Recovery(Run(Open(a, b, iOwner, rOwner, iClock, rClock), moves), iClock, n + |moves|);
  }

  /** What `from` seals next, `to` opens. */
  ghost predicate Carries(from: Session, to: Session, payload: seq<Byte>) {
    var o := SealData(from, payload, SEALED_BUF_SIZE);
    o.reply.Sent? && OpenData(to, o.reply.msg, |payload|).reply == Received(payload)
  }

  /** Neither end has accepted a counter that the other has not used. */
  lemma AcceptedWasSent(l: Link, h0: U64)
    requires LinkInv(l, h0) && l.i.phase == Established
    ensures (forall c | c in l.r.accepted :: c < l.i.txCounter) && (forall c | c in l.i.accepted :: c < l.r.txCounter)
  {
    forall c | c in l.r.accepted ensures c < l.i.txCounter {
      var d :| d in l.r.hist.delivered && SealedUnder(d, l.r.dataKeys.rx) && d.body.counter == c;
      assert SealedOk(l.i, d);
    }
    forall c | c in l.i.accepted ensures c < l.r.txCounter {
      var d :| d in l.i.hist.delivered && SealedUnder(d, l.i.dataKeys.rx) && d.body.counter == c;
      assert SealedOk(l.r, d);
    }
  }

  lemma EstablishedCarriesData(l: Link, h0: U64, payload: seq<Byte>)
    requires LinkInv(l, h0) && l.i.phase == Established
    requires |payload| + DATA_OVERHEAD <= SEALED_BUF_SIZE
    ensures Carries(l.i, l.r, payload) && Carries(l.r, l.i, payload)
  {
    AcceptedWasSent(l, h0);
  }

  /** In every state of every run with an established initiator, whatever either end seals next reaches
      the other intact. */
  lemma EstablishedRunCarriesData(a: nat, b: nat, iOwner: nat, rOwner: nat, iClock: U64, rClock: U64,
                                  moves: seq<Move>, payload: seq<Byte>)
    requires Startable(a, b, iOwner, rOwner, iClock, rClock, |moves|) && |payload| + DATA_OVERHEAD <= SEALED_BUF_SIZE
    requires Run(Open(a, b, iOwner, rOwner, iClock, rClock), moves).i.phase == Established
    ensures var l := Run(Open(a, b, iOwner, rOwner, iClock, rClock), moves);
            Carries(l.i, l.r, payload) && Carries(l.r, l.i, payload)
  {
    ReachableInv(a, b, iOwner, rOwner, iClock, rClock, moves);
    EstablishedCarriesData(Run(Open(a, b, iOwner, rOwner, iClock, rClock), moves), iClock, payload);
  }
}
