/** The id-indexed table of send times (`InFlight` in src/transport/xdp/receiver.rs,
    `SharedInFlight` and the local `slots` in src/transport/udp.rs): one slot per
    16-bit DNS id, 0 when free. */
module SlotTable {
  import opened Machine

  const SLOTS: nat := 65536

  /** Whether a sweep at `now` expires an entry stamped `v`: at age > timeout in the
      XDP table, at age >= timeout (`inclusive`) in the UDP ones. */
  predicate Expired(now: nat, v: nat, timeout: nat, inclusive: bool) {
    v != 0 && (if inclusive then SatSub(now, v) >= timeout else SatSub(now, v) > timeout)
  }

  /** 1 for an occupied slot, 0 for a free one. */
  function Mark(v: nat): nat {
    if v == 0 then 0 else 1
  }

  ghost function Sum(xs: seq<nat>): nat {
    if xs == [] then 0 else Sum(xs[..|xs| - 1]) + xs[|xs| - 1]
  }

  lemma {:induction false} SumUpdate(xs: seq<nat>, i: nat, v: nat)
    requires i < |xs|
    ensures Sum(xs[i := v]) == Sum(xs) - xs[i] + v
    decreases |xs|
  {
    var ys := xs[i := v];
    if i < |xs| - 1 {
      SumUpdate(xs[..|xs| - 1], i, v);
      assert ys[..|ys| - 1] == xs[..|xs| - 1][i := v];
    } else {
      assert ys[..|ys| - 1] == xs[..|xs| - 1];
    }
  }

  lemma {:induction false} SumBounded(xs: seq<nat>, b: nat)
    requires forall i :: 0 <= i < |xs| ==> xs[i] <= b
    ensures Sum(xs) <= |xs| * b
    decreases |xs|
  {
    if xs != [] { SumBounded(xs[..|xs| - 1], b); }
  }

  lemma {:induction false} SumMono(xs: seq<nat>, ys: seq<nat>)
    requires |xs| == |ys| && forall i :: 0 <= i < |xs| ==> xs[i] <= ys[i]
    ensures Sum(xs) <= Sum(ys)
    decreases |xs|
  {
    if xs != [] { SumMono(xs[..|xs| - 1], ys[..|ys| - 1]); }
  }

  ghost function Marks(slots: seq<nat>): seq<nat> {
    seq(|slots|, i requires 0 <= i < |slots| => Mark(slots[i]))
  }

  ghost function Occupied(slots: seq<nat>): nat {
    Sum(Marks(slots))
  }

  lemma OccupiedUpdate(slots: seq<nat>, i: nat, v: nat)
    requires i < |slots|
    ensures Occupied(slots[i := v]) == Occupied(slots) - Mark(slots[i]) + Mark(v)
  {
    assert Marks(slots[i := v]) == Marks(slots)[i := Mark(v)];
    SumUpdate(Marks(slots), i, Mark(v));
  }

  lemma OccupiedPositive(slots: seq<nat>, i: nat)
    requires i < |slots| && slots[i] != 0
    ensures Occupied(slots) >= 1
  {
    OccupiedUpdate(slots, i, 0);
  }

  lemma {:induction false} ZeroSum(xs: seq<nat>)
    requires forall i :: 0 <= i < |xs| ==> xs[i] == 0
    ensures Sum(xs) == 0
    decreases |xs|
  {
    if xs != [] { ZeroSum(xs[..|xs| - 1]); }
  }

  /** The table after a sweep. */
  ghost function Swept(slots: seq<nat>, now: nat, timeout: nat, inclusive: bool): (r: seq<nat>)
    ensures |r| == |slots|
    ensures forall i :: 0 <= i < |r| ==> r[i] == if Expired(now, slots[i], timeout, inclusive) then 0 else slots[i]
  {
    seq(|slots|, i requires 0 <= i < |slots| => if Expired(now, slots[i], timeout, inclusive) then 0 else slots[i])
  }

  class Table {
    const slots: array<nat>

    ghost predicate Valid() {
      slots.Length == SLOTS
    }

    ghost function Entries(): seq<nat>
      reads slots
    {
      slots[..]
    }

    constructor ()
      ensures Valid() && fresh(slots)
      ensures Occupied(Entries()) == 0
    {
      slots := new nat[SLOTS](_ => 0);
      new;
      ZeroSum(Marks(slots[..]));
    }

    /** Records a send time, forced non-zero; an entry already there is overwritten. */
    method Insert(id: nat, sendNs: nat)
      requires Valid() && id < SLOTS
      modifies slots
      ensures Entries() == old(Entries())[id := Max(sendNs, 1)]
      ensures Occupied(Entries()) == old(Occupied(Entries())) + 1 - Mark(old(slots[id]))
    {
      OccupiedUpdate(slots[..], id, Max(sendNs, 1));
      slots[id] := Max(sendNs, 1);
      assert slots[..] == old(slots[..])[id := Max(sendNs, 1)];
    }

    /** Frees the slot and returns what was in it, 0 if it was free. */
    method Take(id: nat) returns (stamp: nat)
      requires Valid() && id < SLOTS
      modifies slots
      ensures stamp == old(slots[id])
      ensures Entries() == old(Entries())[id := 0]
      ensures Occupied(Entries()) == old(Occupied(Entries())) - Mark(stamp)
    {
      OccupiedUpdate(slots[..], id, 0);
      stamp := slots[id];
      slots[id] := 0;
      assert slots[..] == old(slots[..])[id := 0];
    }

    /** Frees every expired slot, keeps the others, and counts what it freed. */
    method Sweep(now: nat, timeout: nat, inclusive: bool) returns (freed: nat)
      requires Valid()
      modifies slots
      ensures Entries() == Swept(old(Entries()), now, timeout, inclusive)
      ensures Occupied(Entries()) + freed == old(Occupied(Entries()))
    {
      freed := 0;
      ghost var was := slots[..];
      var i := 0;
      while i < slots.Length
        invariant i <= slots.Length
        invariant forall k :: 0 <= k < i ==> slots[k] == Swept(was, now, timeout, inclusive)[k]
        invariant forall k :: i <= k < slots.Length ==> slots[k] == was[k]
        invariant Occupied(slots[..]) + freed == Occupied(was)
      {
        if Expired(now, slots[i], timeout, inclusive) {
          var _ := Take(i);
          freed := freed + 1;
        }
        i := i + 1;
      }
      assert slots[..] == Swept(was, now, timeout, inclusive);
    }

    /** Frees every slot and counts the occupied ones. */
    method DrainAll() returns (drained: nat)
      requires Valid()
      modifies slots
      ensures drained == old(Occupied(Entries()))
      ensures forall i :: 0 <= i < SLOTS ==> Entries()[i] == 0
    {
      drained := 0;
      ghost var was := slots[..];
      var i := 0;
      while i < slots.Length
        invariant i <= slots.Length
        invariant forall k :: 0 <= k < i ==> slots[k] == 0
        invariant Occupied(slots[..]) + drained == Occupied(was)
      {
        OccupiedUpdate(slots[..], i, 0);
        ghost var before := slots[..];
        if slots[i] != 0 {
          drained := drained + 1;
        }
        slots[i] := 0;
        assert slots[..] == before[i := 0];
        i := i + 1;
      }
      ZeroSum(Marks(slots[..]));
    }
  }
}
