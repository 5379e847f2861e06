/**
 The data channel's anti-replay window: a 1024-bit circular bitmap addressed by
 `counter % 1024`, together with the reference it has to agree with, which knows only
 the set of counters accepted so far.
 */
module Replay {
  import opened Words

  const WINDOW_BITS: int := 1024
  const WINDOW_BYTES: int := 128

  /** The reference: `c` is new, and no accepted counter is 1024 or more ahead of it. */
  predicate Fresh(accepted: set<U64>, c: U64) {
    c !in accepted && forall a | a in accepted :: a - c < 1024
  }

  // ---------------------------------------------------------------- bits of a byte

  predicate BitOf(b: bv8, i: nat)
    requires i < 8
  {
    (b >> i) & 1 == 1
  }

  lemma SetBit(b: bv8, i: nat, j: nat)
    requires i < 8 && j < 8
    ensures BitOf(b | ((1 as bv8) << i), j) == (i == j || BitOf(b, j))
  {
  }

  lemma ClearBit(b: bv8, i: nat, j: nat)
    requires i < 8 && j < 8
    ensures BitOf(b & !((1 as bv8) << i), j) == (i != j && BitOf(b, j))
  {
  }

  // ---------------------------------------------------------------- the circular bitmap

  function Slot(c: U64): nat {
    c % WINDOW_BITS
  }

  predicate Marked(bits: seq<bv8>, c: U64)
    requires |bits| == WINDOW_BYTES
  {
    BitOf(bits[Slot(c) / 8], Slot(c) % 8)
  }

  lemma SlotsDiffer(c: U64, d: U64)
    requires c != d && -WINDOW_BITS < c - d < WINDOW_BITS
    ensures Slot(c) != Slot(d)
    ensures Slot(c) / 8 != Slot(d) / 8 || Slot(c) % 8 != Slot(d) % 8
  {
  }

  function WithBit(b: bv8, i: nat, on: bool): bv8
    requires i < 8
  {
    if on then b | ((1 as bv8) << i) else b & !((1 as bv8) << i)
  }

  lemma WithBitAt(b: bv8, i: nat, on: bool, j: nat)
    requires i < 8 && j < 8
    ensures BitOf(WithBit(b, i, on), j) == if i == j then on else BitOf(b, j)
  {
    SetBit(b, i, j);
    ClearBit(b, i, j);
  }

  /** What replay_bit_set and replay_bit_clear do to the bitmap. */
  lemma WriteBit(before: seq<bv8>, after: seq<bv8>, c: U64, on: bool)
    requires |before| == |after| == WINDOW_BYTES
    requires var k := Slot(c) / 8; after == before[k := WithBit(before[k], Slot(c) % 8, on)]
    ensures Marked(after, c) == on
    ensures forall d: U64 | Slot(d) != Slot(c) :: Marked(after, d) == Marked(before, d)
  {
    forall d: U64 ensures Marked(after, d) == if Slot(d) == Slot(c) then on else Marked(before, d) {
      if Slot(d) / 8 == Slot(c) / 8 {
        WithBitAt(before[Slot(c) / 8], Slot(c) % 8, on, Slot(d) % 8);
      }
    }
  }

  /** The bitmap describes `accepted` exactly on the 1024 counters ending at `highest`. */
  ghost predicate Describes(bits: seq<bv8>, highest: U64, accepted: set<U64>)
    requires |bits| == WINDOW_BYTES
  {
    && highest in accepted
    && (forall a | a in accepted :: a <= highest)
    && (forall c: U64 | highest - WINDOW_BITS < c <= highest :: Marked(bits, c) <==> c in accepted)
  }

  class ReplayWindow {
    var haveReceivedAny: bool
    var highest: U64
    const bits: array<bv8>
    /** Every counter accepted since the last Reset. */
    ghost var accepted: set<U64>

    ghost predicate Valid()
      reads this, bits
    {
      && bits.Length == WINDOW_BYTES
      && (if haveReceivedAny then Describes(bits[..], highest, accepted)
          else accepted == {} && forall c: U64 :: !Marked(bits[..], c))
    }

    constructor ()
      ensures Valid() && accepted == {} && fresh(bits)
    {
      haveReceivedAny, highest, accepted := false, 0, {};
      bits := new bv8[WINDOW_BYTES](_ => 0);
    }

    method Zero()
      requires bits.Length == WINDOW_BYTES
      modifies bits
      ensures forall c: U64 :: !Marked(bits[..], c)
    {
      for k := 0 to WINDOW_BYTES
        invariant forall j | 0 <= j < k :: bits[j] == 0
      {
        bits[k] := 0;
      }
    }

    /** The part of session_start_handshake that forgets what was received; `highest` keeps its value. */
    method Reset()
      requires Valid()
      modifies this, bits
      ensures Valid() && accepted == {} && highest == old(highest)
    {
      haveReceivedAny, accepted := false, {};
      Zero();
    }

    method BitGet(c: U64) returns (marked: bool)
      requires bits.Length == WINDOW_BYTES
      ensures marked == Marked(bits[..], c)
    {
      var slot := c % WINDOW_BITS;
      marked := (bits[slot / 8] >> (slot % 8)) & 1 == 1;
    }

    method BitSet(c: U64)
      requires bits.Length == WINDOW_BYTES
      modifies bits
      ensures Marked(bits[..], c)
      ensures forall d: U64 | Slot(d) != Slot(c) :: Marked(bits[..], d) == old(Marked(bits[..], d))
    {
      var slot := c % WINDOW_BITS;
      bits[slot / 8] := bits[slot / 8] | ((1 as bv8) << (slot % 8));
      WriteBit(old(bits[..]), bits[..], c, true);
    }

    method BitClear(c: U64)
      requires bits.Length == WINDOW_BYTES
      modifies bits
      ensures !Marked(bits[..], c)
      ensures forall d: U64 | Slot(d) != Slot(c) :: Marked(bits[..], d) == old(Marked(bits[..], d))
    {
      var slot := c % WINDOW_BITS;
      bits[slot / 8] := bits[slot / 8] & !((1 as bv8) << (slot % 8));
      WriteBit(old(bits[..]), bits[..], c, false);
    }

    /** Unmarks the counters strictly between `highest` and `c`, which are about to enter the window. */
    method ClearGap(c: U64) returns (ghost cleared: nat)
      requires Valid() && haveReceivedAny
      requires highest < c && c - highest < WINDOW_BITS
      modifies bits
      ensures cleared == c - highest - 1 < WINDOW_BITS
      ensures forall d: U64 | highest < d < c :: !Marked(bits[..], d)
      ensures forall d: U64 | c - WINDOW_BITS < d <= highest :: Marked(bits[..], d) == old(Marked(bits[..], d))
    {
      cleared := 0;
      for x := highest + 1 to c
        invariant cleared == x - highest - 1
        invariant forall d: U64 | highest < d < x :: !Marked(bits[..], d)
        invariant forall d: U64 | c - WINDOW_BITS < d <= highest :: Marked(bits[..], d) == old(Marked(bits[..], d))
      {
        label before:
        BitClear(x);
        forall d: U64 | c - WINDOW_BITS < d < c && d != x
          ensures Marked(bits[..], d) == old@before(Marked(bits[..], d))
        {
          SlotsDiffer(d, x);
        }
        cleared := cleared + 1;
      }
    }

    /** replay_check_and_mark: agrees with the reference on every counter; a refusal changes nothing. */
    method CheckAndMark(c: U64) returns (ok: bool)
      requires Valid()
      modifies this, bits
      ensures Valid()
      ensures ok <==> old(Fresh(accepted, c))
      ensures accepted == if ok then old(accepted) + {c} else old(accepted)
      ensures !ok ==> unchanged(this) && bits[..] == old(bits[..])
    {
      if !haveReceivedAny {
        BitSet(c);
        highest, haveReceivedAny, accepted := c, true, {c};
        forall d: U64 | c - WINDOW_BITS < d < c ensures !Marked(bits[..], d) {
          SlotsDiffer(d, c);
        }
        return true;
      }
      if c > highest {
        var advance := c - highest;
        if advance >= WINDOW_BITS {
          Zero();
        } else {
          ghost var cleared := ClearGap(c);
        }
        label before:
        BitSet(c);
        forall d: U64 | c - WINDOW_BITS < d < c ensures Marked(bits[..], d) == old@before(Marked(bits[..], d)) {
          SlotsDiffer(d, c);
        }
        highest, accepted := c, accepted + {c};
        return true;
      }
      var age := highest - c;
      if age >= WINDOW_BITS {
        return false;
      }
      var seen := BitGet(c);
      if seen {
        return false;
      }
      BitSet(c);
      forall d: U64 | highest - WINDOW_BITS < d <= highest && d != c
        ensures Marked(bits[..], d) == old(Marked(bits[..], d))
      {
        SlotsDiffer(d, c);
      }
      accepted := accepted + {c};
      return true;
    }
  }

  // ---------------------------------------------------------------- whole runs of the window

  /** The counters accepted when `cs` is presented, in order, to an empty window. */
  ghost function AcceptedOf(cs: seq<U64>): set<U64> {
    if cs == [] then {}
    else
      var before := AcceptedOf(cs[..|cs| - 1]);
      var c := cs[|cs| - 1];
      if Fresh(before, c) then before + {c} else before
  }

  lemma AcceptedNext(cs: seq<U64>, k: nat)
    requires k < |cs|
    ensures var before := AcceptedOf(cs[..k]);
            AcceptedOf(cs[..k + 1]) == if Fresh(before, cs[k]) then before + {cs[k]} else before
  {
    assert cs[..k + 1][..k] == cs[..k];
  }

  /** The reference's verdict on the k-th counter. */
  ghost predicate Verdict(cs: seq<U64>, k: nat)
    requires k < |cs|
  {
    Fresh(AcceptedOf(cs[..k]), cs[k])
  }

  method RunWindow(cs: seq<U64>) returns (verdicts: seq<bool>)
    ensures |verdicts| == |cs| && forall k | 0 <= k < |cs| :: verdicts[k] <==> Verdict(cs, k)
  {
    var w := new ReplayWindow();
    verdicts := [];
    for k := 0 to |cs|
      invariant w.Valid() && fresh(w) && fresh(w.bits)
      invariant w.accepted == AcceptedOf(cs[..k])
      invariant |verdicts| == k && forall j | 0 <= j < k :: verdicts[j] <==> Verdict(cs, j)
    {
      AcceptedNext(cs, k);
      var ok := w.CheckAndMark(cs[k]);
      verdicts := verdicts + [ok];
    }
  }

  lemma {:induction false} AcceptedArePresented(cs: seq<U64>)
    ensures forall a | a in AcceptedOf(cs) :: a in cs
  {
    if cs == [] {
    } else {
      AcceptedArePresented(cs[..|cs| - 1]);
    }
  }

  /** Reordering by less than a window loses nothing: distinct counters, none of them preceded
      by one 1024 or more ahead of it, are all accepted. */
  lemma {:induction false} ReorderingTolerated(cs: seq<U64>)
    requires Distinct(cs)
    requires forall j, k | 0 <= j < k < |cs| :: (cs[j] as int) - cs[k] < 1024
    ensures forall k | 0 <= k < |cs| :: Verdict(cs, k)
  {
    forall k | 0 <= k < |cs| ensures Verdict(cs, k) {
      AcceptedArePresented(cs[..k]);
    }
  }
}
