/** How many relationships one datagram can touch. */
module Attribution {
  import opened Words
  import opened Terms
  import opened Sessions
  import opened Peers
  import opened Daemon

  /** The datagram restarts this relationship without being answered: it is an authentic, fresh INIT
      for an established responder, and its ephemeral key fails the exchange. */
  predicate Restarts(s: Session, msg: Datagram) {
    InitAccepted(s, msg, HANDSHAKE_MSG_LEN) && s.phase == Established && msg.body.plain.pk == SmallOrder
  }

  lemma HandleInitUnanswered(s: Session, msg: Datagram)
    requires !HandleInit(s, msg, HANDSHAKE_MSG_LEN).reply.Sent?
    ensures HandleInit(s, msg, HANDSHAKE_MSG_LEN).s != s <==> Restarts(s, msg)
  {
    RefusedInitChangesNothing(s, msg, HANDSHAKE_MSG_LEN);
  }

  /** Apart from the relationship that answers, trying an INIT around changes exactly those it restarts. */
  lemma {:induction false} FindResponderChanges(peers: seq<Peer>, msg: Datagram, k: nat, j: nat)
    requires k <= |peers| && k <= j < |peers|
    ensures var r := FindResponder(peers, msg, k);
            && (r.found != Some(j) && r.peers[j] != peers[j] ==> Restarts(peers[j].session, msg))
            && (Restarts(peers[j].session, msg) ==> r.found.None? && r.peers[j] != peers[j])
    decreases |peers| - k
  {
    if peers[k].session.role != Responder {
      if j > k {
        FindResponderChanges(peers, msg, k + 1, j);
      } else {
        UntouchedBefore(peers, msg, k + 1, k);
      }
    } else {
      var o := HandleInit(peers[k].session, msg, HANDSHAKE_MSG_LEN);
      var tried := WithSession(peers, k, o.s);
      if !o.reply.Sent? {
        HandleInitUnanswered(peers[k].session, msg);
        if j > k {
          FindResponderChanges(tried, msg, k + 1, j);
        } else {
          UntouchedBefore(tried, msg, k + 1, k);
          SmallOrderUnanswered(tried, msg, k + 1);
        }
      }
    }
  }

  lemma {:induction false} UntouchedBefore(peers: seq<Peer>, msg: Datagram, k: nat, j: nat)
    requires j < k <= |peers|
    ensures FindResponder(peers, msg, k).peers[j] == peers[j]
    decreases |peers| - k
  {
    FindResponderFrame(peers, msg, k, j);
  }

  lemma {:induction false} SmallOrderUnanswered(peers: seq<Peer>, msg: Datagram, k: nat)
    requires k <= |peers|
    ensures msg.Datagram? && msg.body.Box? && msg.body.plain == Key(SmallOrder) ==>
        FindResponder(peers, msg, k).found.None?
    decreases |peers| - k
  {
    if k == |peers| {
    } else {
      var o := HandleInit(peers[k].session, msg, HANDSHAKE_MSG_LEN);
      SmallOrderUnanswered(peers, msg, k + 1);
      SmallOrderUnanswered(WithSession(peers, k, o.s), msg, k + 1);
    }
  }

  ghost predicate Changed(n: Node, e: Event, k: nat) {
    k < |n.peers| && Step(n, e).peers[k] != n.peers[k]
  }

  lemma StrangerChanges(n: Node, e: Event, k: nat)
    requires FromStrangerEvent(n, e) && k < |n.peers|
    ensures Restarts(n.peers[k].session, e.msg) ==> FindResponder(n.peers, e.msg, 0).found.None? && Changed(n, e, k)
    ensures Changed(n, e, k) ==>
        Restarts(n.peers[k].session, e.msg) || FindResponder(n.peers, e.msg, 0).found == Some(k)
  {
    FindResponderChanges(n.peers, e.msg, 0, k);
  }

  lemma KnownChanges(n: Node, e: Event, j: nat, k: nat)
    requires e.FromUdp? && !FromStrangerEvent(n, e) && j != k
    ensures !(Changed(n, e, j) && Changed(n, e, k))
  {
  }

  /** A datagram touches two relationships exactly when it is an INIT from an unknown address that
      restarts two of them. */
  lemma OneRelationshipPerDatagram(n: Node, e: Event)
    requires e.FromUdp?
    ensures (exists j: nat, k: nat :: j != k && Changed(n, e, j) && Changed(n, e, k))
       <==> FromStrangerEvent(n, e) &&
            exists j: nat, k: nat :: j < |n.peers| && k < |n.peers| && j != k &&
              Restarts(n.peers[j].session, e.msg) && Restarts(n.peers[k].session, e.msg)
  {
    forall j: nat, k: nat | j != k && Changed(n, e, j) && Changed(n, e, k)
      ensures FromStrangerEvent(n, e) && Restarts(n.peers[j].session, e.msg) && Restarts(n.peers[k].session, e.msg)
    {
      if FromStrangerEvent(n, e) {
        StrangerChanges(n, e, j);
        StrangerChanges(n, e, k);
      } else {
        KnownChanges(n, e, j, k);
      }
    }
    if FromStrangerEvent(n, e) {
      forall k: nat | k < |n.peers| && Restarts(n.peers[k].session, e.msg) ensures Changed(n, e, k) {
        StrangerChanges(n, e, k);
      }
    }
  }

  /** With a different static key per responder relationship, a datagram changes at most one. */
  lemma DistinctKeysTouchOne(n: Node, e: Event, j: nat, k: nat)
    requires e.FromUdp? && j != k && Changed(n, e, j) && Changed(n, e, k)
    ensures n.peers[j].session.staticKeys.rx == n.peers[k].session.staticKeys.rx
  {
    OneRelationshipPerDatagram(n, e);
    StrangerChanges(n, e, j);
    StrangerChanges(n, e, k);
  }
}
