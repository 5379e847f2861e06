/**
 session_t as the source has it: a record updated in place, whose replay window is a byte array.
 Every operation is proved to compute what its counterpart in module Sessions says.
 */
module SessionObjects {
  import opened Words
  import opened Terms
  import opened Replay
  import Sessions
  import Wire

  class SessionObject {
    var role: Role
    var phase: Sessions.Phase
    var staticKeys: KeyPair
    var ephPk: PublicKey
    var ephSk: Secret
    var handshakeCounter: U64
    var pendingCounter: U64
    var haveSeen: bool
    var highestSeen: U64
    var dataKeys: KeyPair
    var txCounter: U64
    const window: ReplayWindow
    /** The supply of ephemeral secrets. */
    var owner: nat
    var drawn: nat
    ghost var hist: Sessions.History

    ghost predicate Valid()
      reads this, window, window.bits
    {
      window.Valid()
    }

    ghost function Value(): Sessions.Session
      reads this, window
    {
      Sessions.Session(role, owner, phase, staticKeys, ephPk, ephSk, drawn, handshakeCounter, pendingCounter,
                       haveSeen, highestSeen, dataKeys, txCounter, window.accepted, hist)
    }

    constructor ()
      ensures Valid() && fresh(window) && fresh(window.bits)
    {
      window := new ReplayWindow();
      staticKeys, dataKeys, ephPk, ephSk := Sessions.NO_KEYS, Sessions.NO_KEYS, SmallOrder, Zeroed;
    }

    /** The memset of session_init. */
    method Clear(r: Role, o: nat)
      requires Valid()
      modifies this, window, window.bits
      ensures Valid() && Value() == Sessions.Blank(r, o)
    {
      window.Reset();
      role, owner, drawn, phase := r, o, 0, Sessions.Pending;
      ClearCounters();
      staticKeys, dataKeys, ephPk, ephSk := Sessions.NO_KEYS, Sessions.NO_KEYS, SmallOrder, Zeroed;
    }

    method ClearCounters()
      modifies this`handshakeCounter, this`pendingCounter, this`haveSeen, this`highestSeen, this`txCounter, this`hist
      ensures handshakeCounter == pendingCounter == highestSeen == txCounter == 0 && !haveSeen
      ensures hist == Sessions.History([], [], [])
    {
      handshakeCounter, pendingCounter, haveSeen, highestSeen, txCounter := 0, 0, false, 0, 0;
      hist := Sessions.History([], [], []);
    }

    method Init(r: Role, o: nat, node: nat, peer: PublicKey, wallClock: U64) returns (ok: bool)
      requires Valid()
      modifies this, window, window.bits
      ensures Valid()
      ensures ok <==> Sessions.Init(r, o, node, peer, wallClock).Some?
      ensures ok ==> Value() == Sessions.Init(r, o, node, peer, wallClock).value
    {
      Clear(r, o);
      var keys := Derive(r, PublicOf(Static(node)), Static(node), peer);
      if keys.None? {
        return false;
      }
      staticKeys := keys.value;
      handshakeCounter := wallClock;
      StartHandshake();
      return true;
    }

    method StartHandshake()
      requires Valid()
      modifies this, window, window.bits
      ensures Valid() && Value() == Sessions.Start(old(Value()))
    {
      window.Reset();
      ephSk := Ephemeral(owner, drawn);
      ephPk := PublicOf(ephSk);
      drawn := drawn + 1;
      phase := Sessions.Pending;
      txCounter := 0;
    }

    /** Takes the derived keys into use and wipes the ephemeral secret. */
    method Establish(keys: KeyPair)
      requires Valid()
      modifies this`dataKeys, this`ephSk, this`phase, this`hist
      ensures Valid() && Value() == Sessions.Establish(old(Value()), keys)
    {
      dataKeys := keys;
      ephSk := Zeroed;
      phase := Sessions.Established;
      hist := hist.(epochs := hist.epochs + [Sessions.Epoch(ephPk, keys)]);
    }

    method BuildInit(outLen: nat) returns (reply: Sessions.Reply)
      requires Valid()
      modifies this
      ensures Valid() && Sessions.Outcome(Value(), reply) == Sessions.BuildInit(old(Value()), outLen)
    {
      if role != Initiator || phase != Sessions.Pending {
        return Sessions.Refused;
      }
      if outLen < Sessions.HANDSHAKE_MSG_LEN {
        return Sessions.Refused;
      }
      var msg := Datagram(HANDSHAKE_INIT, Box(staticKeys.tx, handshakeCounter, Key(ephPk)));
      hist := hist.(sealed := hist.sealed + [msg]);
      pendingCounter := handshakeCounter;
      handshakeCounter := Inc64(handshakeCounter);
      return Sessions.Sent(msg);
    }

    method HandleInit(msg: Datagram, outLen: nat) returns (reply: Sessions.Reply)
      requires Valid()
      modifies this, window, window.bits
      ensures Valid() && Sessions.Outcome(Value(), reply) == Sessions.HandleInit(old(Value()), msg, outLen)
    {
      if role != Responder {
        return Sessions.Refused;
      }
      if outLen < Sessions.HANDSHAKE_MSG_LEN {
        return Sessions.Refused;
      }
      var o := Open(staticKeys.rx, HANDSHAKE_INIT, msg, 32);
      if o.None? || !o.value.plain.Key? {
        return Sessions.Refused;
      }
      var counter := o.value.counter;
      if haveSeen && counter <= highestSeen {
        return Sessions.Refused;
      }
      if phase == Sessions.Established {
        StartHandshake();
      }
      var keys := Derive(role, ephPk, ephSk, o.value.plain.pk);
      if keys.None? {
        return Sessions.Refused;
      }
      Establish(keys.value);
      var answer := Datagram(HANDSHAKE_RESPONSE, Box(staticKeys.tx, counter, Key(ephPk)));
      haveSeen := true;
      highestSeen := counter;
      hist := hist.(sealed := hist.sealed + [answer]);
      return Sessions.Sent(answer);
    }

    method HandleResponse(msg: Datagram) returns (reply: Sessions.Reply)
      requires Valid()
      modifies this
      ensures Valid() && Sessions.Outcome(Value(), reply) == Sessions.HandleResponse(old(Value()), msg)
    {
      if role != Initiator || phase != Sessions.Pending {
        return Sessions.Refused;
      }
      var o := Open(staticKeys.rx, HANDSHAKE_RESPONSE, msg, 32);
      if o.None? || !o.value.plain.Key? {
        return Sessions.Refused;
      }
      if o.value.counter != pendingCounter {
        return Sessions.Refused;
      }
      var keys := Derive(role, ephPk, ephSk, o.value.plain.pk);
      if keys.None? {
        return Sessions.Refused;
      }
      Establish(keys.value);
      return Sessions.Done;
    }

    method SealData(payload: seq<Byte>, outLen: nat) returns (reply: Sessions.Reply)
      requires Valid()
      modifies this
      ensures Valid() && Sessions.Outcome(Value(), reply) == Sessions.SealData(old(Value()), payload, outLen)
    {
      if phase != Sessions.Established {
        return Sessions.Refused;
      }
      if outLen < |payload| + Sessions.DATA_OVERHEAD {
        return Sessions.Refused;
      }
      var msg := Datagram(DATA, Box(dataKeys.tx, txCounter, Packet(payload)));
      hist := hist.(sealed := hist.sealed + [msg]);
      txCounter := Inc64(txCounter);
      return Sessions.Sent(msg);
    }

    /** The plaintext goes to `out` before the replay check, whatever that says. A message that fails to
        authenticate may leave anything there. */
    method OpenData(msg: Datagram, out: array<Byte>) returns (reply: Sessions.Reply)
      requires Valid() && out as object != window.bits as object
      modifies this, window, window.bits, out
      ensures Valid() && Sessions.Outcome(Value(), reply) == Sessions.OpenData(old(Value()), msg, out.Length)
      ensures var plain := Sessions.Decrypted(old(Value()), msg, out.Length);
              plain.Some? ==> |plain.value| <= out.Length && out[..] == plain.value + old(out[|plain.value|..])
      ensures old(phase) != Sessions.Established || msg.Empty? || msg.kind != DATA ==> out[..] == old(out[..])
    {
      if phase != Sessions.Established {
        return Sessions.Refused;
      }
      var o := Open(dataKeys.rx, DATA, msg, out.Length);
      if o.None? || !o.value.plain.Packet? {
        return Sessions.Refused;
      }
      Wire.WriteFront(o.value.plain.bytes, out);
      var ok := window.CheckAndMark(o.value.counter);
      if !ok {
        return Sessions.Refused;
      }
      hist := hist.(delivered := hist.delivered + [msg]);
      return Sessions.Received(o.value.plain.bytes);
    }
  }
}
