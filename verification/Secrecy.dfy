/**
 Forward secrecy of a link: who learns every secret that the two ends hold can compute none of the keys
 that earlier handshakes produced.
 */
module Secrecy {
  import opened Words
  import opened Terms
  import opened Sessions
  import opened Links

  /** Whoever holds one of the two secrets of an exchange can compute its keys. */
  predicate Computable(key: SessionKey, secrets: set<Secret>) {
    !(key.shared !! secrets)
  }

  /** Every secret the two nodes hold for this link: their long-term ones, and whatever ephemeral ones are live. */
  function Held(l: Link): set<Secret> {
    {Static(l.a), Static(l.b), l.i.ephSk, l.r.ephSk}
  }

  // ---------------------------------------------------------------- data and the handshake it belongs to

  /** Some handshake of the session produced these keys. */
  ghost predicate FromEpoch(s: Session, keys: KeyPair) {
    exists e :: e in s.hist.epochs && e.keys == keys
  }

  /** Some handshake of the session produced the key this was sealed under. */
  ghost predicate SealedInEpoch(s: Session, d: Datagram) {
    exists e :: e in s.hist.epochs && SealedUnder(d, e.keys.tx)
  }

  ghost predicate DataInEpochs(s: Session) {
    && (s.phase == Established ==> FromEpoch(s, s.dataKeys))
    && forall d | d in s.hist.sealed && d.Datagram? && d.kind == DATA :: SealedInEpoch(s, d)
  }

  lemma MoreEpochs(s: Session, t: Session)
    requires DataInEpochs(s) && s.hist.epochs <= t.hist.epochs
    requires forall d | d in t.hist.sealed && d.Datagram? && d.kind == DATA :: d in s.hist.sealed || SealedInEpoch(t, d)
    requires t.phase == Established ==> FromEpoch(t, t.dataKeys)
    ensures DataInEpochs(t)
  {
    forall d | d in t.hist.sealed && d.Datagram? && d.kind == DATA ensures SealedInEpoch(t, d) {
      if d in s.hist.sealed {
        var e :| e in s.hist.epochs && SealedUnder(d, e.keys.tx);
        assert e in t.hist.epochs;
      }
    }
  }

  lemma EstablishedInEpoch(s: Session, t: Session)
    requires t.hist.epochs == s.hist.epochs + [Epoch(t.ephPk, t.dataKeys)]
    ensures FromEpoch(t, t.dataKeys)
  {
    assert t.hist.epochs[|s.hist.epochs|] == Epoch(t.ephPk, t.dataKeys);
  }

  lemma SealInEpoch(s: Session, payload: seq<Byte>, outLen: nat)
    requires DataInEpochs(s)
    ensures DataInEpochs(SealData(s, payload, outLen).s)
  {
    var o := SealData(s, payload, outLen);
    if o.reply.Sent? {
      var e :| e in s.hist.epochs && e.keys == s.dataKeys;
      assert e in o.s.hist.epochs && SealedUnder(o.reply.msg, e.keys.tx);
      MoreEpochs(s, o.s);
    }
  }

  lemma AnswerInEpoch(s: Session, d: Datagram, outLen: nat)
    requires DataInEpochs(s)
    ensures DataInEpochs(HandleInit(s, d, outLen).s)
  {
    var o := HandleInit(s, d, outLen);
    if o.reply.Sent? {
      EstablishedInEpoch(s, o.s);
    }
    MoreEpochs(s, o.s);
  }

  lemma ResponseInEpoch(s: Session, d: Datagram)
    requires DataInEpochs(s)
    ensures DataInEpochs(HandleResponse(s, d).s)
  {
    var o := HandleResponse(s, d);
    if o.reply.Done? {
      EstablishedInEpoch(s, o.s);
    }
    MoreEpochs(s, o.s);
  }

  lemma CallInEpoch(s: Session, c: Call)
    requires DataInEpochs(s)
    ensures DataInEpochs(Do(s, c).s)
  {
    match c
    case HandleInitCall(msg, outLen) => AnswerInEpoch(s, msg, outLen);
    case HandleResponseCall(msg) => ResponseInEpoch(s, msg);
    case SealDataCall(payload, outLen) => SealInEpoch(s, payload, outLen);
    case StartCall => MoreEpochs(s, Start(s));
    case BuildInitCall(outLen) => MoreEpochs(s, BuildInit(s, outLen).s);
    case OpenDataCall(msg, outLen) => MoreEpochs(s, OpenData(s, msg, outLen).s);
  }

  // ---------------------------------------------------------------- which secrets are behind an epoch

  /** The keys come from one ephemeral secret of each end. */
  ghost predicate BothEphemeral(l: Link, e: Epoch) {
    var key := e.keys.tx;
    && key.client.PublicOf? && key.client.secret.Ephemeral? && key.client.secret.owner == l.i.owner
    && key.client.secret.draw < l.i.drawn
    && key.server.PublicOf? && key.server.secret.Ephemeral? && key.server.secret.owner == l.r.owner
    && key.shared == {key.client.secret, key.server.secret}
  }

  /** An INIT carries an ephemeral key of the initiator, and the current one only with the pending counter. */
  ghost predicate InitCarries(i: Session, d: Datagram) {
    && d.Datagram? && d.body.Box? && d.body.plain.Key?
    && d.body.plain.pk.PublicOf? && d.body.plain.pk.secret.Ephemeral? && d.body.plain.pk.secret.draw < i.drawn
    && (d.body.plain.pk == i.ephPk ==> d.body.counter == i.pendingCounter)
  }

  ghost predicate InitsCarry(i: Session) {
    forall d | d in i.hist.sealed && SealedUnder(d, i.staticKeys.tx) :: InitCarries(i, d)
  }

  ghost predicate EpochsPair(l: Link) {
    && (forall e | e in l.i.hist.epochs :: BothEphemeral(l, e))
    && (forall e | e in l.r.hist.epochs :: BothEphemeral(l, e))
  }

  /** Nothing was established before the responder first answered, and the current ephemeral key of the
      initiator is in no keys of the responder but its current ones, if they answer the pending INIT. */
  ghost predicate Spent(l: Link) {
    && (l.r.phase == Pending ==> l.i.hist.epochs == [] && l.r.hist.epochs == [])
    && (forall e | e in l.r.hist.epochs && e.keys.tx.client == l.i.ephPk ::
          e.keys == l.r.dataKeys && l.r.highestSeen == l.i.pendingCounter)
  }

  ghost predicate SecrecyInv(l: Link) {
    InitsCarry(l.i) && EpochsPair(l) && Spent(l) && DataInEpochs(l.i) && DataInEpochs(l.r)
  }

  lemma AttemptCarries(l: Link, h0: U64, k: Link)
    requires LinkInv(l, h0) && SecrecyInv(l) && k == l.(i := StartAndBuild(l.i))
    ensures SecrecyInv(k)
  {
    CallInEpoch(l.i, StartCall);
    CallInEpoch(Start(l.i), BuildInitCall(SEALED_BUF_SIZE));
    forall d | d in k.i.hist.sealed && SealedUnder(d, k.i.staticKeys.tx) ensures InitCarries(k.i, d) {
      if d in l.i.hist.sealed {
        assert InitCarries(l.i, d);
      }
    }
    forall e | e in l.i.hist.epochs + l.r.hist.epochs ensures BothEphemeral(k, e) {
      assert BothEphemeral(l, e);
    }
  }

  /** A response that is taken comes from the responder, so both secrets behind the new keys are ephemeral. */
  lemma TakingPairs(l: Link, h0: U64, d: Datagram, k: Link)
    requires LinkInv(l, h0) && SecrecyInv(l) && Available(l, d) && k == l.(i := HandleResponse(l.i, d).s)
    requires LinkInv(k, h0)
    ensures SecrecyInv(k)
  {
    ResponseInEpoch(l.i, d);
    if HandleResponse(l.i, d).reply.Done? {
      assert d in l.r.hist.sealed && SealedOk(l.r, d);
      forall e | e in k.i.hist.epochs ensures BothEphemeral(k, e) {
        if e in l.i.hist.epochs {
          assert BothEphemeral(l, e);
        }
      }
    }
  }

  /** An INIT that is answered comes from the initiator, and is newer than all answered before. */
  lemma AnsweredInit(l: Link, h0: U64, d: Datagram, outLen: nat)
    requires LinkInv(l, h0) && SecrecyInv(l) && Available(l, d) && InitAccepted(l.r, d, outLen)
    ensures d in l.i.hist.sealed && SealedOk(l.i, d) && InitCarries(l.i, d) && d.body.plain.pk.secret.owner == l.i.owner
    ensures l.i.handshakeCounter == l.i.pendingCounter + 1 && d.body.counter <= l.i.pendingCounter
  {
    assert d in l.i.hist.sealed;
  }

  lemma AnsweringSpends(l: Link, h0: U64, d: Datagram, outLen: nat, k: Link)
    requires LinkInv(l, h0) && SecrecyInv(l) && Available(l, d) && InitAccepted(l.r, d, outLen)
    requires k == l.(r := HandleInit(l.r, d, outLen).s)
    ensures Spent(k)
  {
    AnsweredInit(l, h0, d, outLen);
    forall e | e in k.r.hist.epochs && e.keys.tx.client == k.i.ephPk
      ensures e.keys == k.r.dataKeys && k.r.highestSeen == k.i.pendingCounter
    {
      assert e !in l.r.hist.epochs;
    }
  }

  lemma AnsweringPairs(l: Link, h0: U64, d: Datagram, outLen: nat, k: Link)
    requires LinkInv(l, h0) && SecrecyInv(l) && Available(l, d) && k == l.(r := HandleInit(l.r, d, outLen).s)
    ensures SecrecyInv(k)
  {
    AnswerInEpoch(l.r, d, outLen);
    if InitAccepted(l.r, d, outLen) {
      AnsweredInit(l, h0, d, outLen);
      AnsweringSpends(l, h0, d, outLen, k);
      forall e | e in k.r.hist.epochs ensures BothEphemeral(k, e) {
        if e in l.r.hist.epochs {
          assert BothEphemeral(l, e);
        }
      }
    }
  }

  lemma DataAtInitiator(l: Link, h0: U64, c: Call, k: Link)
    requires LinkInv(l, h0) && SecrecyInv(l) && (c.SealDataCall? || c.OpenDataCall?) && k == l.(i := Do(l.i, c).s)
    ensures SecrecyInv(k)
  {
    CallInEpoch(l.i, c);
    forall d | d in k.i.hist.sealed && SealedUnder(d, k.i.staticKeys.tx) ensures InitCarries(k.i, d) {
      assert d in l.i.hist.sealed && InitCarries(l.i, d);
    }
    assert forall e | e in l.i.hist.epochs + l.r.hist.epochs :: BothEphemeral(l, e) ==> BothEphemeral(k, e);
  }

  lemma DataAtResponder(l: Link, h0: U64, c: Call, k: Link)
    requires LinkInv(l, h0) && SecrecyInv(l) && (c.SealDataCall? || c.OpenDataCall?) && k == l.(r := Do(l.r, c).s)
    ensures SecrecyInv(k)
  {
    CallInEpoch(l.r, c);
    assert forall e | e in l.i.hist.epochs + l.r.hist.epochs :: BothEphemeral(l, e) ==> BothEphemeral(k, e);
  }

  lemma IgnoredCallsKeep(l: Link, h0: U64, c: Call)
    requires LinkInv(l, h0)
    ensures c.HandleInitCall? ==> Do(l.i, c).s == l.i
    ensures c.HandleResponseCall? ==> Do(l.r, c).s == l.r
  {
  }

  lemma InitiatorKeepsSecrecy(l: Link, h0: U64, c: Call, k: Link)
    requires LinkInv(l, h0) && SecrecyInv(l) && Enabled(l, c) && k == l.(i := Do(l.i, c).s) && LinkInv(k, h0)
    ensures SecrecyInv(k)
  {
    IgnoredCallsKeep(l, h0, c);
    if c.HandleResponseCall? {
      TakingPairs(l, h0, c.msg, k);
    } else if !c.HandleInitCall? {
      DataAtInitiator(l, h0, c, k);
    }
  }

  lemma ResponderKeepsSecrecy(l: Link, h0: U64, c: Call, k: Link)
    requires LinkInv(l, h0) && SecrecyInv(l) && Enabled(l, c) && k == l.(r := Do(l.r, c).s)
    ensures SecrecyInv(k)
  {
    IgnoredCallsKeep(l, h0, c);
    if c.HandleInitCall? {
      AnsweringPairs(l, h0, c.msg, c.outLen, k);
    } else if !c.HandleResponseCall? {
      DataAtResponder(l, h0, c, k);
    }
  }

  lemma NextKeepsSecrecy(l: Link, h0: U64, m: Move, n: nat, k: Link)
    requires LinkInv(l, h0) && SecrecyInv(l) && Bounded(l.i, n) && Bounded(l.r, n) && n + 1 < TWO_TO_THE_64
    requires k == Next(l, m)
    ensures LinkInv(k, h0) && SecrecyInv(k) && Bounded(k.i, n + 1) && Bounded(k.r, n + 1)
  {
    NextKeeps(l, h0, m, n);
    match m
    case Initiate => AttemptCarries(l, h0, k);
    case AtInitiator(c) =>
      if Enabled(l, c) {
        InitiatorKeepsSecrecy(l, h0, c, k);
      }
    case AtResponder(c) =>
      if Enabled(l, c) {
        ResponderKeepsSecrecy(l, h0, c, k);
      }
  }

  lemma {:induction false} RunKeepsSecrecy(l: Link, h0: U64, moves: seq<Move>, n: nat, top: nat, k: Link)
    requires LinkInv(l, h0) && SecrecyInv(l) && Bounded(l.i, n) && Bounded(l.r, n)
    requires n + |moves| == top < TWO_TO_THE_64 && k == Links.Run(l, moves)
    ensures LinkInv(k, h0) && SecrecyInv(k) && Bounded(k.i, top) && Bounded(k.r, top)
    decreases |moves|
  {
    if moves == [] {
    } else {
      var before := moves[..|moves| - 1];
      RunKeepsSecrecy(l, h0, before, n, top - 1, Links.Run(l, before));
      NextKeepsSecrecy(Links.Run(l, before), h0, moves[|moves| - 1], top - 1, k);
    }
  }

  lemma OpenIsSecret(a: nat, b: nat, iOwner: nat, rOwner: nat, iClock: U64, rClock: U64)
    ensures SecrecyInv(Links.Open(a, b, iOwner, rOwner, iClock, rClock))
  {
  }

  // ---------------------------------------------------------------- forward secrecy

  /** The responder has answered the pending INIT, and the initiator has not taken the answer yet. */
  predicate AnswerUnderway(l: Link) {
    l.i.phase == Pending && l.r.phase == Established && l.r.highestSeen == l.i.pendingCounter
  }

  lemma InitiatorEpochIsSpent(l: Link, h0: U64, e: Epoch)
    requires LinkInv(l, h0) && SecrecyInv(l) && e in l.i.hist.epochs
    ensures !Computable(e.keys.tx, Held(l))
  {
    assert BothEphemeral(l, e) && EpochOk(l.i, e);
  }

  lemma ResponderEpochIsSpent(l: Link, h0: U64, e: Epoch)
    requires LinkInv(l, h0) && SecrecyInv(l) && e in l.r.hist.epochs
    ensures Computable(e.keys.tx, Held(l)) <==> e.keys == l.r.dataKeys && AnswerUnderway(l)
  {
    assert BothEphemeral(l, e) && EpochOk(l.r, e);
    if e.keys == l.r.dataKeys && AnswerUnderway(l) {
      assert l.i.ephSk in e.keys.tx.shared;
    }
  }

  lemma DataIsSpent(l: Link, h0: U64, d: Datagram)
    requires LinkInv(l, h0) && SecrecyInv(l) && d.Datagram? && d.kind == DATA && d.body.Box?
    ensures d in l.i.hist.sealed ==> !Computable(d.body.key, Held(l))
    ensures d in l.r.hist.sealed ==>
        (Computable(d.body.key, Held(l)) <==> d.body.key == l.r.dataKeys.tx && AnswerUnderway(l))
  {
    if d in l.i.hist.sealed {
      var e :| e in l.i.hist.epochs && SealedUnder(d, e.keys.tx);
      InitiatorEpochIsSpent(l, h0, e);
    }
    if d in l.r.hist.sealed {
      var e :| e in l.r.hist.epochs && SealedUnder(d, e.keys.tx);
      ResponderEpochIsSpent(l, h0, e);
      assert EpochOk(l.r, e);
    }
  }

  /** In every state of every run, from all the secrets that both ends then hold: no data the initiator has
      sealed can be opened, and of the data the responder has sealed exactly that under its current keys, and
      only until the initiator has taken the answer that they belong to. */
  lemma ForwardSecrecy(a: nat, b: nat, iOwner: nat, rOwner: nat, iClock: U64, rClock: U64, moves: seq<Move>,
                       d: Datagram)
    requires Startable(a, b, iOwner, rOwner, iClock, rClock, |moves|) && d.Datagram? && d.kind == DATA && d.body.Box?
    ensures var l := Links.Run(Links.Open(a, b, iOwner, rOwner, iClock, rClock), moves);
            && (d in l.i.hist.sealed ==> !Computable(d.body.key, Held(l)))
            && (d in l.r.hist.sealed ==>
                  (Computable(d.body.key, Held(l)) <==> d.body.key == l.r.dataKeys.tx && AnswerUnderway(l)))
  {
    var l0, n := Links.Open(a, b, iOwner, rOwner, iClock, rClock), if iClock < rClock then rClock else iClock;
    var l := Links.Run(l0, moves);
    OpenKeeps(a, b, iOwner, rOwner, iClock, rClock);
    OpenIsSecret(a, b, iOwner, rOwner, iClock, rClock);
    RunKeepsSecrecy(l0, iClock, moves, n, n + |moves|, l);
    DataIsSpent(l, iClock, d);
  }
}
