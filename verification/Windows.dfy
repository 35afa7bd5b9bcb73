/** The sliding bitmap that refuses order ids seen before (matching/window.go). */
module Windows {
  import opened Exchange

  newtype uint64 = x: int | 0 <= x < 0x1_0000_0000_0000_0000

  /** An id whose successor is still a uint64; the window's upper bound is such a successor. */
  const ID_LIMIT: nat := 0xFFFF_FFFF_FFFF_FFFF

  /** Bit i alone, and every bit but bit i. */
  function BitMask(i: nat): bv8
    requires i < 8
  {
    match i
    case 0 => 1 case 1 => 2 case 2 => 4 case 3 => 8 case 4 => 16 case 5 => 32 case 6 => 64 case 7 => 128
  }

  function ClearMask(i: nat): bv8
    requires i < 8
  {
    match i
    case 0 => 254 case 1 => 253 case 2 => 251 case 3 => 247 case 4 => 239 case 5 => 223 case 6 => 191 case 7 => 127
  }

  /** The reference: a value is admitted when it was never admitted before and no admitted
      value has left it behind by a whole window. */
  ghost predicate Admits(accepted: set<nat>, floor: nat, cap: nat, v: nat) {
    v !in accepted && v >= floor && forall a :: a in accepted ==> a < v + cap
  }

  predicate BitOf(b: bv8, i: nat)
    requires i < 8
  {
    b & BitMask(i) != 0
  }

  function WithBit(b: bv8, i: nat, v: bool): bv8
    requires i < 8
  {
    if v then b | BitMask(i) else b & ClearMask(i)
  }

  lemma {:induction false} WithBitSetsOneBit(b: bv8, i: nat, v: bool, j: nat)
    requires i < 8 && j < 8
    ensures BitOf(WithBit(b, i, v), j) == if i == j then v else BitOf(b, j)
  {
  }

  predicate Bit(m: seq<bv8>, i: nat)
    requires i < 8 * |m|
  {
    BitOf(m[i / 8], i % 8)
  }

  lemma DistinctSlots(u: nat, v: nat, cap: nat)
    requires u < v < u + cap
    ensures u % cap != v % cap
  {
    var d := v / cap - u / cap;
    assert v - u == cap * d + v % cap - u % cap;
    MulBound(cap, d);
  }

  lemma SameSlot(v: nat, cap: nat)
    requires cap > 0
    ensures (v + cap) % cap == v % cap
  {
    var d := (v + cap) / cap - v / cap - 1;
    assert cap * d == v % cap - (v + cap) % cap by {
      assert cap * (v / cap) + v % cap == v;
      assert cap * ((v + cap) / cap) + (v + cap) % cap == v + cap;
    }
    MulBound(cap, d);
  }

  /** Every slot of the bitmap belongs to exactly one value of the window. */
  lemma SlotOwner(min: nat, cap: nat, v: nat) returns (u: nat)
    requires cap > 0 && v >= min
    ensures min <= u < min + cap && u % cap == v % cap
    decreases v - min
  {
    if v < min + cap {
      u := v;
    } else {
      SameSlot(v - cap, cap);
      u := SlotOwner(min, cap, v - cap);
    }
  }

  class Window {
    var min: uint64
    var max: uint64
    const cap: uint64
    const bitmap: array<bv8>

    /** Where the window started, and every value it has admitted since. */
    ghost const floor: nat
    ghost var accepted: set<nat>

    ghost predicate Holds(v: nat)
      requires cap > 0 && 8 * bitmap.Length >= cap as nat
      reads bitmap
    {
      assert v % cap as nat < cap as nat;
      Bit(bitmap[..], v % cap as nat)
    }

    ghost predicate Valid()
      reads this, bitmap
    {
      && cap > 0 && 8 * bitmap.Length >= cap as nat
      && floor <= min as nat && min as nat + cap as nat == max as nat
      && (min as nat == floor || (max - 1) as nat in accepted)
      && (forall a :: a in accepted ==> a < max as nat)
      && (forall v: nat :: min as nat <= v < max as nat ==> Holds(v) == (v in accepted))
    }

    constructor (min: uint64, max: uint64)
      requires min < max
      ensures Valid() && fresh(bitmap)
      ensures this.min == min && this.max == max && cap == max - min
      ensures floor == min as nat && accepted == {}
    {
      this.min, this.max, this.cap := min, max, max - min;
      var remainder := (max - min) % 8;
      if remainder != 0 {
        remainder := 1;
      }
      var data := new bv8[(max - min) / 8 + remainder](_ => 0);
      bitmap := data;
      floor, accepted := min as nat, {};
      new;
      assert forall i: nat :: i < 8 ==> !BitOf(0, i);
    }

    method Get(i: uint64) returns (b: bool)
      requires i as nat < 8 * bitmap.Length
      ensures b == Bit(bitmap[..], i as nat)
    {
      b := bitmap[i / 8] & BitMask((i % 8) as nat) != 0;
    }

    method Set(i: uint64, v: bool)
      requires i as nat < 8 * bitmap.Length
      modifies bitmap
      ensures Bit(bitmap[..], i as nat) == v
      ensures forall j: nat :: j < 8 * bitmap.Length && j != i as nat ==> Bit(bitmap[..], j) == old(Bit(bitmap[..], j))
    {
      var index, bit := i / 8, i % 8;
      WithBitSetsOneBit(bitmap[index], bit as nat, v, bit as nat);
      bitmap[index] := WithBit(bitmap[index], bit as nat, v);
      forall j: nat | j < 8 * bitmap.Length && j != i as nat
        ensures Bit(bitmap[..], j) == old(Bit(bitmap[..], j))
      {
        if j / 8 == index as nat {
          WithBitSetsOneBit(old(bitmap[index]), bit as nat, v, j % 8);
        }
      }
    }

    /** The lower bound is the largest admitted value's window, so the bound test is the
        reference's test. */
    lemma MinIsTheBound(v: nat)
      requires Valid()
      ensures v >= min as nat <==> v >= floor && forall a :: a in accepted ==> a < v + cap as nat
    {
      if v < min as nat && min as nat != floor {
        assert (max - 1) as nat in accepted;
      }
    }

    method Put(val: uint64) returns (ok: bool)
      requires Valid() && (val as nat) < ID_LIMIT
      modifies this, bitmap
      ensures Valid()
      ensures ok == Admits(old(accepted), floor, cap as nat, val as nat)
      ensures accepted == if ok then old(accepted) + {val as nat} else old(accepted)
      ensures ok ==> max as nat == if val >= old(max) then val as nat + 1 else old(max) as nat
      ensures !ok ==> min == old(min)
    {
      MinIsTheBound(val as nat);
      if val < min {
        return false;
      }
      if val >= max {
        Slide(val);
        return true;
      }
      var existed := Get(val % cap);
      assert Holds(val as nat) == existed;
      if existed {
        return false;
      }
      SetSlot(val, true);
      accepted := accepted + {val as nat};
      return true;
    }

    /** Moves the window just past `val`, clearing the slots it slides over. */
    method Slide(val: uint64)
      requires Valid() && max <= val && (val as nat) < ID_LIMIT
      modifies this, bitmap
      ensures Valid()
      ensures max as nat == val as nat + 1
      ensures accepted == old(accepted) + {val as nat}
    {
      var delta := val - max + 1;
      var rangeDelta := delta;
      if rangeDelta > cap {
        rangeDelta := cap;
      }
      ClearRange(rangeDelta);
      ghost var m, c := min as nat, cap as nat;
      forall v: nat | m + delta as nat <= v < m + delta as nat + c
        ensures Holds(v) == (v in accepted)
      {
        SlidOver(m, rangeDelta as nat, delta as nat, v);
      }
      min := min + delta;
      max := max + delta;
      SetSlot(val, true);
      accepted := accepted + {val as nat};
    }

    method ClearRange(rangeDelta: uint64)
      requires Valid() && rangeDelta <= cap
      modifies bitmap
      ensures forall v: nat :: min as nat <= v < min as nat + rangeDelta as nat ==> !Holds(v)
      ensures forall v: nat :: min as nat + rangeDelta as nat <= v < max as nat ==> Holds(v) == (v in accepted)
    {
      var i := min;
      while i < min + rangeDelta
        invariant min <= i <= max && i as nat <= min as nat + rangeDelta as nat
        invariant forall v: nat :: min as nat <= v < i as nat ==> !Holds(v)
        invariant forall v: nat :: i as nat <= v < max as nat ==> Holds(v) == (v in accepted)
      {
        SetSlot(i, false);
        i := i + 1;
      }
    }

    /** Writes the slot of a value between `min` and `max`; every other value keeps its own. */
    method SetSlot(val: uint64, b: bool)
      requires cap > 0 && 8 * bitmap.Length >= cap as nat
      requires min <= val < max && min as nat + cap as nat == max as nat
      modifies bitmap
      ensures Holds(val as nat) == b
      ensures forall v: nat :: min as nat <= v < max as nat && v != val as nat ==> Holds(v) == old(Holds(v))
    {
      Set(val % cap, b);
      forall v: nat | min as nat <= v < max as nat && v != val as nat
        ensures Holds(v) == old(Holds(v))
      {
        if v < val as nat {
          DistinctSlots(v, val as nat, cap as nat);
        } else {
          DistinctSlots(val as nat, v, cap as nat);
        }
      }
    }

    /** After the clearing loop, a value of the moved window is marked only if admitted. */
    lemma SlidOver(m: nat, range: nat, delta: nat, v: nat)
      requires cap > 0 && 8 * bitmap.Length >= cap as nat
      requires range == if delta > cap as nat then cap as nat else delta
      requires forall a :: a in accepted ==> a < m + cap as nat
      requires forall u: nat :: m <= u < m + range ==> !Holds(u)
      requires forall u: nat :: m + range <= u < m + cap as nat ==> Holds(u) == (u in accepted)
      requires m + delta <= v < m + delta + cap as nat
      ensures Holds(v) == (v in accepted)
    {
      if v >= m + cap as nat {
        var u := SlotOwner(m, cap as nat, v);
        assert Holds(u) == Holds(v);
        if u >= m + range {
          // then delta < cap, and u and v lie less than a window apart
          DistinctSlots(u, v, cap as nat);
        }
      }
    }

    method Contains(val: uint64) returns (b: bool)
      requires Valid()
      ensures b == (min <= val && val as nat in accepted)
    {
      if val < min || val >= max {
        return false;
      }
      assert Holds(val as nat) == (val as nat in accepted);
      b := Get(val % cap);
    }
  }
}
