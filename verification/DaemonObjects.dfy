/**
 The daemon's loop body as the source has it, searching and sweeping the peers by loops; the source's
 array of peers is a sequence that the methods reassign. Each part is proved to compute the corresponding
 step of module Daemon.
 */
module DaemonObjects {
  import opened Words
  import opened Terms
  import opened Sessions
  import opened Peers
  import opened Daemon
  import Routing

  class DaemonObject {
    const table: Routing.Table
    var peers: seq<Peer>
    /** What has passed through the TUN device. */
    ghost var tunIn: seq<seq<Byte>>
    ghost var tunOut: seq<Write>

    ghost function Value(): Node
      reads this
    {
      Node(table, peers, tunIn, tunOut)
    }

    constructor (t: Routing.Table, ps: seq<Peer>)
      ensures Value() == Node(t, ps, [], [])
    {
      table, peers, tunIn, tunOut := t, ps, [], [];
    }

    /** find_peer_by_addr: the first peer known at this address, or -1. */
    method FindPeerByAddr(from: Endpoint) returns (index: int)
      ensures index == match FindByAddr(peers, from, 0) case None => -1 case Some(k) => k
      ensures if index < 0 then UnknownAddress(peers, from) else KnownFirst(peers, from, index)
    {
      FindsFirst(peers, from);
      for k := 0 to |peers|
        invariant FindByAddr(peers, from, 0) == FindByAddr(peers, from, k)
      {
        if peers[k].resolved && peers[k].addr.ip == from.ip && peers[k].addr.port == from.port {
          return k;
        }
      }
      return -1;
    }

    /** find_responder_for_init: tries the message on every responder session, changing them as it goes. */
    method FindResponderForInit(msg: Datagram) returns (index: int)
      modifies this`peers
      ensures peers == FindResponder(old(peers), msg, 0).peers
      ensures index == match FindResponder(old(peers), msg, 0).found case None => -1 case Some(k) => k
      ensures -1 <= index < |peers|
    {
      for k := 0 to |peers|
        invariant |peers| == |old(peers)|
        invariant FindResponder(old(peers), msg, 0) == FindResponder(peers, msg, k)
      {
        if peers[k].session.role != Responder {
          continue;
        }
        var o := HandleInit(peers[k].session, msg, HANDSHAKE_MSG_LEN);
        peers := WithSession(peers, k, o.s);
        if o.reply.Sent? {
          return k;
        }
      }
      return -1;
    }

    /** The TUN part of the loop body. */
    method HandleTun(packet: seq<Byte>, now: U64, sent: bool)
      requires |table| == |peers|
      modifies this`peers, this`tunIn
      ensures Value() == OnTun(old(Value()), packet, now, sent)
    {
      tunIn := tunIn + [packet];
      var dest := Routing.ParseDest(packet);
      if dest.None? {
        return;
      }
      var index := Routing.FindPeerForDest(table, dest.value);
      if index < 0 {
        return;
      }
      var p := peers[index];
      if p.session.phase != Established {
        return;
      }
      var o := SealData(p.session, packet, SEALED_BUF_SIZE);
      if o.reply.Sent? {
        peers := peers[index := if sent then p.(session := o.s, lastTx := now) else p.(session := o.s)];
      }
    }

    /** The UDP part of the loop body. */
    method HandleUdp(from: Endpoint, msg: Datagram, now: U64, sent: bool, written: bool)
      modifies this`peers, this`tunOut
      ensures Value() == OnUdp(old(Value()), from, msg, now, sent, written)
    {
      if msg.Empty? {
        return;
      }
      var index := FindPeerByAddr(from);
      if index < 0 && msg.kind == HANDSHAKE_INIT {
        var matched := FindResponderForInit(msg);
        if matched >= 0 && sent {
          var learned := peers[matched].(addr := from, resolved := true);
          peers := peers[matched := learned.(lastRx := now, lastTx := now, lastDone := now)];
        }
      } else if index >= 0 {
        var p := peers[index];
        if msg.kind == HANDSHAKE_INIT && p.session.role == Responder {
          var o := HandleInit(p.session, msg, HANDSHAKE_MSG_LEN);
          p := p.(session := o.s);
          if o.reply.Sent? && sent {
            p := p.(lastRx := now, lastTx := now, lastDone := now);
          }
        } else if msg.kind == HANDSHAKE_RESPONSE && p.session.role == Initiator {
          var o := HandleResponse(p.session, msg);
          p := p.(session := o.s);
          if o.reply.Done? {
            p := p.(lastRx := now, lastDone := now);
          }
        } else if msg.kind == DATA {
          var o := OpenData(p.session, msg, MAX_PACKET_SIZE);
          p := p.(session := o.s);
          if o.reply.Received? {
            if |o.reply.payload| == 0 {
              p := p.(lastRx := now);
            } else if written {
              p := p.(lastRx := now);
              tunOut := tunOut + [Write(index, o.reply.payload)];
            }
          }
        }
        peers := peers[index := p];
      }
    }

    /** initiate_handshake on peer k. */
    method InitiateHandshake(k: nat, now: U64, lookup: Option<Endpoint>)
      requires k < |peers|
      modifies this`peers
      ensures peers == old(peers)[k := Initiate(old(peers)[k], now, lookup)]
    {
      var p := peers[k];
      if !p.resolved {
        p := p.(lastRx := now);
        if lookup.None? {
          peers := peers[k := p];
          return;
        }
        p := p.(resolved := true, addr := lookup.value);
      }
      p := p.(session := Start(p.session), lastRx := now, lastTx := now);
      p := p.(session := BuildInit(p.session, SEALED_BUF_SIZE).s);
      peers := peers[k := p];
    }

    /** The timer part of the loop body. */
    method HandleTimers(now: U64, lookups: seq<Option<Endpoint>>)
      requires |lookups| == |peers|
      modifies this`peers
      ensures peers == TickAll(old(peers), now, lookups)
    {
      for k := 0 to |peers|
        invariant |peers| == |old(peers)|
        invariant forall j | 0 <= j < |peers| :: peers[j] == if j < k then Tick(old(peers)[j], now, lookups[j])
            else old(peers)[j]
      {
        var p := peers[k];
        if p.resolved && p.session.phase == Established && Sub64(now, p.lastTx) >= KEEPALIVE_INTERVAL_MS {
          p := p.(session := SealData(p.session, [], SEALED_BUF_SIZE).s, lastTx := now);
          peers := peers[k := p];
        }
        if p.session.role == Initiator && Sub64(now, p.lastRx) >= SESSION_TIMEOUT_MS {
          InitiateHandshake(k, now, lookups[k]);
        } else if p.session.role == Initiator && p.session.phase == Established
                  && Sub64(now, p.lastDone) >= KEY_ROTATION_INTERVAL_MS {
          InitiateHandshake(k, now, lookups[k]);
        }
      }
    }
  }
}
