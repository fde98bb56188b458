/** The AF_XDP single-producer/single-consumer rings (src/transport/xdp/umem.rs).

    One side of each ring belongs to the worker and the other to the kernel. The
    kernel side runs concurrently: between two volatile accesses of the worker it
    may consume (or produce) any number of entries. That interference is a
    parameter of every worker operation, so each contract holds for all of it. */
module Rings {
  import opened Machine

  class Ring<T> {
    const size: nat
    const mask: nat
    const descs: array<T>
    var producer: U32
    var consumer: U32
    /** Entries produced and not yet released, oldest first. */
    ghost var queue: seq<T>

    ghost predicate Valid()
      reads this, descs
    {
      && PowerOfTwo(size) && size < TWO32 && mask == size - 1
      && descs.Length == size
      && |queue| <= size
      && producer == WrapAdd(consumer, |queue|)
      && forall i :: 0 <= i < |queue| ==> descs[Slot(consumer, i)] == queue[i]
    }

    /** The slot of the entry `i` places after free-running index `c`. */
    ghost function Slot(c: U32, i: nat): (s: nat)
      requires size > 0
      ensures s < size
    {
      (c + i) % size
    }

    constructor (size: nat, start: U32, blank: T)
      requires PowerOfTwo(size) && size < TWO32
      ensures Valid() && fresh(descs) && queue == []
      ensures this.size == size && producer == consumer == start
    {
      this.size := size;
      this.mask := size - 1;
      this.descs := new T[size](_ => blank);
      this.producer, this.consumer := start, start;
      this.queue := [];
    }

    /** The masked index of the code is the slot of the specification. */
    lemma MaskedIndex(c: U32, i: nat)
      requires PowerOfTwo(size) && size < TWO32 && mask == size - 1
      ensures BitAnd(WrapAdd(c, i), mask) == Slot(c, i)
    {
      MaskIsMod(WrapAdd(c, i), size);
      ModMod(c + i, size);
    }

    /** Advancing an index by `k`, with wrap, shifts slots by `k`. */
    lemma AdvancedSlot(c: U32, k: nat, i: nat)
      requires PowerOfTwo(size) && size < TWO32
      ensures Slot(WrapAdd(c, k), i) == Slot(c, k + i)
    {
      ModMod(c + k, size);
      ModAdd(c + k, TWO32, i);
      ModMod(c + k + i, size);
      ModMod(WrapAdd(c, k) + i, size);
    }

    /** The kernel consumes up to `k` entries: it reads them from the slots and
        then publishes its consumer index. */
    method KernelConsume(k: nat) returns (taken: seq<T>)
      requires Valid()
      modifies this`consumer, this`queue
      ensures Valid()
      ensures |taken| == Min(k, |old(queue)|)
      ensures taken + queue == old(queue)
      ensures consumer == WrapAdd(old(consumer), |taken|)
    {
      var n := Min(k, WrapSub(producer, consumer));
      Distance(consumer, |queue|);
      taken := ReadOldest(n);
      Release(n);
    }

    /** The entry `i` places after the oldest, read from its slot. */
    method Peek(i: nat) returns (x: T)
      requires Valid() && i < |queue|
      ensures x == queue[i]
    {
      MaskedIndex(consumer, i);
      x := descs[BitAnd(WrapAdd(consumer, i), mask)];
    }

    method ReadOldest(n: nat) returns (out: seq<T>)
      requires Valid() && n <= |queue|
      ensures out == queue[..n]
    {
      out := [];
      while |out| < n
        invariant |out| <= n
        invariant out == queue[..|out|]
      {
        var x := Peek(|out|);
        out := out + [x];
      }
    }

    /** Publishing a consumer index `n` further on drops the `n` oldest entries. */
    method Release(n: nat)
      requires Valid() && n <= |queue|
      modifies this`consumer, this`queue
      ensures Valid()
      ensures queue == old(queue)[n..]
      ensures consumer == WrapAdd(old(consumer), n)
    {
      ghost var c := consumer;
      AddAdd(c, n, |queue| - n);
      forall i | 0 <= i < |queue| - n
        ensures Slot(WrapAdd(c, n), i) == Slot(c, n + i)
      {
        AdvancedSlot(c, n, i);
      }
      consumer := WrapAdd(consumer, n);
      queue := queue[n..];
    }

    /** Writing `x` at `k` places past the newest entry touches no live slot. */
    method Stage(k: nat, x: T)
      requires Valid() && |queue| + k < size
      modifies descs
      ensures Valid()
      ensures descs[Slot(producer, k)] == x
      ensures forall s :: 0 <= s < size && s != Slot(producer, k) ==> descs[s] == old(descs[s])
    {
      MaskedIndex(producer, k);
      AdvancedSlot(consumer, |queue|, k);
      forall i | 0 <= i < |queue|
        ensures Slot(consumer, i) != Slot(producer, k)
      {
        DistinctSlots(consumer, i, |queue| + k, size);
      }
      descs[BitAnd(WrapAdd(producer, k), mask)] := x;
    }

    /** Publishing a producer index `n` further on appends the `n` staged items. */
    method Publish(n: nat, ghost items: seq<T>)
      requires Valid() && n == |items| && |queue| + n <= size
      requires Staged(items)
      modifies this`producer, this`queue
      ensures Valid()
      ensures queue == old(queue) + items
      ensures producer == WrapAdd(old(producer), n)
    {
      AddAdd(consumer, |queue|, n);
      forall i | 0 <= i < |queue| + n
        ensures descs[Slot(consumer, i)] == (queue + items)[i]
      {
        if i >= |queue| { AdvancedSlot(consumer, |queue|, i - |queue|); }
      }
      producer := WrapAdd(producer, n);
      queue := queue + items;
    }

    /** The free slots from the producer on hold `items`. */
    ghost predicate Staged(items: seq<T>)
      requires size > 0 && descs.Length == size
      reads this`producer, descs
    {
      forall k :: 0 <= k < |items| ==> descs[Slot(producer, k)] == items[k]
    }

    /** Stage keeps what was staged before it. */
    method StageNext(ghost done: seq<T>, k: nat, x: T)
      requires Valid() && k == |done| && |queue| + k < size && Staged(done)
      modifies descs
      ensures Valid() && Staged(done + [x])
    {
      forall j | 0 <= j < k
        ensures Slot(producer, j) != Slot(producer, k)
      {
        DistinctSlots(producer, j, k, size);
      }
      Stage(k, x);
    }

    /** The kernel produces as many of `items` as fit. */
    method KernelProduce(items: seq<T>) returns (added: seq<T>)
      requires Valid()
      modifies this`producer, this`queue, descs
      ensures Valid()
      ensures added == items[..Min(|items|, size - |old(queue)|)]
      ensures queue == old(queue) + added
    {
      Distance(consumer, |queue|);
      var n := Min(|items|, size - WrapSub(producer, consumer));
      var i := 0;
      while i < n
        invariant i <= n && Valid() && queue == old(queue) && producer == old(producer)
        invariant Staged(items[..i])
      {
        StageNext(items[..i], i, items[i]);
        assert items[..i] + [items[i]] == items[..i + 1];
        i := i + 1;
      }
      added := items[..n];
      Publish(n, added);
    }

    /** One slot write of a producer loop, the kernel consuming up to `k` entries
        after it. */
    method StageThenConsume(ghost done: seq<T>, i: nat, x: T, k: nat) returns (taken: seq<T>)
      requires Valid() && i == |done| && |queue| + i < size && Staged(done)
      modifies this`consumer, this`queue, descs
      ensures Valid() && Staged(done + [x])
      ensures taken + queue == old(queue) && |taken| <= k
    {
      StageNext(done, i, x);
      taken := KernelConsume(k);
    }

    /** The write loop of both producer operations. */
    method WriteSlots(items: seq<T>, n: nat, kernel: nat -> nat) returns (taken: seq<T>)
      requires Valid() && n <= |items| && |queue| + n <= size
      modifies this`consumer, this`queue, descs
      ensures Valid() && Staged(items[..n])
      ensures taken + queue == old(queue)
      ensures (forall i :: kernel(i) == 0) ==> taken == []
    {
      taken := [];
      var i := 0;
      while i < n
        invariant i <= n && Valid() && Staged(items[..i])
        invariant taken + queue == old(queue)
        invariant (forall i :: kernel(i) == 0) ==> taken == []
      {
        var t := StageThenConsume(items[..i], i, items[i], kernel(i));
        assert items[..i] + [items[i]] == items[..i + 1];
        taken := taken + t;
        i := i + 1;
      }
    }

    /** The read loop of both consumer operations. */
    method ReadSlots(available: nat, kernel: nat -> seq<T>) returns (out: seq<T>, added: seq<T>)
      requires Valid() && available == |queue|
      modifies this`producer, this`queue, descs
      ensures Valid()
      ensures out == old(queue) && queue == old(queue) + added
      ensures (forall i :: kernel(i) == []) ==> added == []
    {
      out, added := [], [];
      while |out| < available
        invariant |out| <= available && Valid()
        invariant queue == old(queue) + added
        invariant out == old(queue)[..|out|]
        invariant (forall i :: kernel(i) == []) ==> added == []
      {
        var x := Peek(|out|);
        out := out + [x];
        var a := KernelProduce(kernel(|out| - 1));
        added := added + a;
      }
    }

    /** The code's free-slot count is exact for every pair of indices. */
    lemma FreeSlots()
      requires Valid()
      ensures WrapSub(producer, consumer) == |queue|
      ensures WrapSub(size, WrapSub(producer, consumer)) == size - |queue|
    {
      Distance(consumer, |queue|);
    }

    /** The free slots as the code computes them. */
    method CountFree() returns (free: nat)
      requires Valid()
      ensures free == size - |queue|
    {
      FreeSlots();
      free := WrapSub(size, WrapSub(producer, consumer));
    }

    /** The entries present as the code computes them. */
    method CountAvailable() returns (available: nat)
      requires Valid()
      ensures available == |queue|
    {
      FreeSlots();
      available := WrapSub(producer, consumer);
    }

    /** `AddrRing::enqueue_batch`, with the kernel consuming up to `kernel(i)`
        entries after the i-th slot write. Whatever the kernel does meanwhile, it
        receives exactly the old entries in order, and what it has not taken is
        followed by the first `n` new ones. */
    method EnqueueBatch(addrs: seq<T>, kernel: nat -> nat) returns (n: nat, taken: seq<T>)
      requires Valid()
      modifies this`producer, this`consumer, this`queue, descs
      ensures Valid()
      ensures n == Min(|addrs|, size - |old(queue)|)
      ensures |taken| <= |old(queue)|
      ensures taken + queue == old(queue) + addrs[..n]
      ensures producer == WrapAdd(old(producer), n)
      ensures (forall i :: kernel(i) == 0) ==> taken == []
    {
      var free := CountFree();
      n := Min(|addrs|, free);
      taken := WriteSlots(addrs, n, kernel);
      Regroup(taken, queue, addrs[..n]);
      Publish(n, addrs[..n]);
    }

    /** `DescRing::produce_tx`: as above, but the producer index is left alone
        when nothing was enqueued. */
    method ProduceTx(items: seq<T>, kernel: nat -> nat) returns (n: nat, taken: seq<T>)
      requires Valid()
      modifies this`producer, this`consumer, this`queue, descs
      ensures Valid()
      ensures n == Min(|items|, size - |old(queue)|)
      ensures |taken| <= |old(queue)|
      ensures taken + queue == old(queue) + items[..n]
      ensures producer == WrapAdd(old(producer), n)
      ensures (forall i :: kernel(i) == 0) ==> taken == []
    {
      var free := CountFree();
      n := Min(|items|, free);
      taken := WriteSlots(items, n, kernel);
      Regroup(taken, queue, items[..n]);
      if n > 0 {
        Publish(n, items[..n]);
      } else {
        AddZero(producer);
        assert items[..n] == [];
      }
    }

    /** `AddrRing::dequeue_all`, with the kernel producing `kernel(i)` after the
        i-th read: the worker gets every entry present at the producer read, in
        order, and what arrived meanwhile stays queued behind. */
    method DequeueAll(kernel: nat -> seq<T>) returns (out: seq<T>, added: seq<T>)
      requires Valid()
      modifies this`producer, this`consumer, this`queue, descs
      ensures Valid()
      ensures out == old(queue) && queue == added
      ensures consumer == WrapAdd(old(consumer), |out|)
      ensures (forall i :: kernel(i) == []) ==> added == []
    {
      var available := CountAvailable();
      out, added := ReadSlots(available, kernel);
      if available > 0 {
        Release(available);
      }
    }

    /** `DescRing::consume_rx`: as above, with an early return when empty. */
    method ConsumeRx(kernel: nat -> seq<T>) returns (out: seq<T>, added: seq<T>)
      requires Valid()
      modifies this`producer, this`consumer, this`queue, descs
      ensures Valid()
      ensures out == old(queue) && queue == added
      ensures consumer == WrapAdd(old(consumer), |out|)
      ensures (forall i :: kernel(i) == []) ==> added == []
    {
      var available := CountAvailable();
      if available == 0 {
        out, added := [], [];
        return;
      }
      out, added := ReadSlots(available, kernel);
      Release(available);
    }
  }

  lemma ModAdd(x: nat, m: nat, i: nat)
    requires m > 0
    ensures (x % m + i) % m == (x + i) % m
  {
    var q := x / m;
    var y := x % m + i;
    assert x + i == m * (q + y / m) + y % m by {
      assert x == m * q + x % m;
      assert y == m * (y / m) + y % m;
      assert m * (q + y / m) == m * q + m * (y / m);
    }
    ModUnique(x + i, m, q + y / m, y % m);
  }

  /** The wrapping distance from `c` to `c + n` is `n`. */
  lemma Distance(c: U32, n: nat)
    requires n < TWO32
    ensures WrapSub(WrapAdd(c, n), c) == n
  {
  }

  lemma Regroup<T>(a: seq<T>, b: seq<T>, c: seq<T>)
    ensures a + (b + c) == (a + b) + c
    ensures b + [] == b
  {
  }

  lemma AddZero(c: U32)
    ensures WrapAdd(c, 0) == c
  {
  }

  lemma AddAdd(c: U32, n: nat, m: nat)
    ensures WrapAdd(WrapAdd(c, n), m) == WrapAdd(c, n + m)
  {
  }
}
