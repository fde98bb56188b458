/** Where the frames of the ownership system go: which holder each step takes a frame from
    and which it gives it to, and that no transmit frame can get stuck on the way. */
module UmemFlow {
  import opened Machine
  import opened Umem

  /** How many of a batch of `len` a ring with `used` entries accepts. */
  function Fits(len: nat, used: nat): nat {
    if len + used <= 4096 then len else if used >= 4096 then 0 else 4096 - used
  }

  /** `k` copies of frame `f` go from one holder to another and `k2` to a third, and `h` sees
      no more and no less of that. */
  ghost predicate Shifted(s: State, t: State, h: Holder, f: nat, from: Holder, to: Holder, k: nat, to2: Holder, k2: nat) {
    && Bounded(s) && Bounded(t)
    && Held(t, h, f) + (if h == from then k + k2 else 0) ==
         Held(s, h, f) + (if h == to then k else 0) + if h == to2 then k2 else 0
  }

  ghost predicate Moves(s: State, t: State, h: Holder, f: nat, from: Holder, to: Holder, k: nat) {
    Shifted(s, t, h, f, from, to, k, to, 0)
  }

  /** Completed frames go to the pool, all of them. */
  lemma ReclaimMoves(s: State, h: Holder, f: nat)
    requires Bounded(s)
    ensures Moves(s, Apply(s, Reclaim), h, f, CompRing, TxPool, Held(s, CompRing, f))
  {
    CountConcat(s.pool, s.comp, f);
  }

  lemma PopCounts(pool: seq<nat>, lens: seq<nat>, f: nat)
    requires |lens| <= |pool|
    ensures Count(Addrs(Popped(pool, lens)), f) == Count(pool[|pool| - |lens|..], f)
    ensures Count(pool, f) == Count(pool[..|pool| - |lens|], f) + Count(pool[|pool| - |lens|..], f)
  {
    PoppedFrames(pool, lens, f);
    CountSplit(pool, |pool| - |lens|, f);
  }

  /** As many frames as are to be sent go from the end of the pool to the batch. */
  lemma PrepareMoves(s: State, lens: seq<nat>, h: Holder, f: nat)
    requires Bounded(s) && Enabled(s, Prepare(lens))
    ensures Moves(s, Apply(s, Prepare(lens)), h, f, TxPool, TxBatch, Count(s.pool[|s.pool| - |lens|..], f))
  {
    PopCounts(s.pool, lens, f);
    assert Addrs([]) == [];
  }

  lemma SplitCounts(batch: seq<nat>, n: nat, front: seq<nat>, back: seq<nat>, taken: nat, f: nat)
    requires n <= |batch| && taken <= |front|
    ensures Count((front + batch[..n])[taken..], f) == Count(front[taken..], f) + Count(batch[..n], f)
    ensures Count(back + batch[n..], f) == Count(back, f) + Count(batch[n..], f)
    ensures Count(batch, f) == Count(batch[..n], f) + Count(batch[n..], f)
  {
    CountSplit(batch, n, f);
    CountConcat(back, batch[n..], f);
    TailOfConcat(front, batch[..n], taken);
    CountConcat(front[taken..], batch[..n], f);
  }

  lemma AddrsSlices(a: seq<Desc>, n: nat)
    requires n <= |a|
    ensures Addrs(a[..n]) == Addrs(a)[..n] && Addrs(a[n..]) == Addrs(a)[n..]
  {
  }

  /** The TX ring takes the first of the batch, as many as fit; the others return to the pool. */
  lemma SubmitMoves(s: State, h: Holder, f: nat)
    requires Bounded(s)
    ensures var n, batch := Fits(|s.txBatch|, |s.tx|), Addrs(s.txBatch);
      Shifted(s, Apply(s, Submit), h, f, TxBatch, TxRing, Count(batch[..n], f), TxPool, Count(batch[n..], f))
  {
    Submitted(s);
    SubmitHeld(s, h, f);
    SubmitCounts(s.txBatch, Fits(|s.txBatch|, |s.tx|), s.tx, s.pool, s.txTaken, f);
  }

  lemma Submitted(s: State)
    requires Bounded(s)
    ensures var n, t := Fits(|s.txBatch|, |s.tx|), Apply(s, Submit);
      Bounded(t) && t == s.(tx := s.tx + s.txBatch[..n], pool := s.pool + Addrs(s.txBatch[n..]), txBatch := [])
  {
  }

  lemma SubmitHeld(s: State, h: Holder, f: nat)
    requires Bounded(s) && Bounded(Apply(s, Submit))
    ensures var n, t := Fits(|s.txBatch|, |s.tx|), Apply(s, Submit);
      Held(t, h, f) == match h
        case TxBatch => 0
        case TxRing => Count(Addrs((s.tx + s.txBatch[..n])[s.txTaken..]), f)
        case TxPool => Count(s.pool + Addrs(s.txBatch[n..]), f)
        case _ => Held(s, h, f)
  {
    Submitted(s);
    assert Addrs([]) == [];
  }

  lemma SubmitCounts(batch: seq<Desc>, n: nat, tx: seq<Desc>, pool: seq<nat>, taken: nat, f: nat)
    requires n <= |batch| && taken <= |tx|
    ensures Count(Addrs((tx + batch[..n])[taken..]), f) == Count(Addrs(tx[taken..]), f) + Count(Addrs(batch)[..n], f)
    ensures Count(pool + Addrs(batch[n..]), f) == Count(pool, f) + Count(Addrs(batch)[n..], f)
    ensures Count(Addrs(batch), f) == Count(Addrs(batch)[..n], f) + Count(Addrs(batch)[n..], f)
  {
    AddrsSlices(batch, n);
    AddrsConcat(tx, batch[..n]);
    AddrsSlices(tx, taken);
    AddrsSlices(tx + batch[..n], taken);
    SplitCounts(Addrs(batch), n, Addrs(tx), pool, taken, f);
  }

  /** Received frames go to the worker, all of them. */
  lemma ReceiveMoves(s: State, h: Holder, f: nat)
    requires Bounded(s) && s.rxBatch == []
    ensures Moves(s, Apply(s, ConsumeRx), h, f, RxRing, RxBatch, Held(s, RxRing, f))
  {
    assert Addrs([]) == [];
  }

  /** The fill ring takes the first of them, as many as fit; the others are lost. */
  lemma RefillMoves(s: State, h: Holder, f: nat)
    requires Bounded(s)
    ensures var n := Fits(|s.rxBatch|, |s.fill|);
      Shifted(s, Apply(s, Refill), h, f, RxBatch, FillRing, Count(s.rxBatch[..n], f), Lost, Count(s.rxBatch[n..], f))
  {
    Refilled(s);
    RefillHeld(s, h, f);
    SplitCounts(s.rxBatch, Fits(|s.rxBatch|, |s.fill|), s.fill, s.lost, s.fillTaken, f);
  }

  lemma Refilled(s: State)
    requires Bounded(s)
    ensures var n, t := Fits(|s.rxBatch|, |s.fill|), Apply(s, Refill);
      Bounded(t) && t == s.(fill := s.fill + s.rxBatch[..n], lost := s.lost + s.rxBatch[n..], rxBatch := [])
  {
  }

  lemma RefillHeld(s: State, h: Holder, f: nat)
    requires Bounded(s) && Bounded(Apply(s, Refill))
    ensures var n, t := Fits(|s.rxBatch|, |s.fill|), Apply(s, Refill);
      Held(t, h, f) == match h
        case RxBatch => 0
        case FillRing => Count((s.fill + s.rxBatch[..n])[s.fillTaken..], f)
        case Lost => Count(s.lost + s.rxBatch[n..], f)
        case _ => Held(s, h, f)
  {
    Refilled(s);
  }

  /** The kernel takes one frame at a time from the fill ring ... */
  lemma TakeFillMoves(s: State, h: Holder, f: nat)
    requires Bounded(s) && Enabled(s, TakeFill)
    ensures Moves(s, Apply(s, TakeFill), h, f, FillRing, KernelRx, One(s.fill[s.fillTaken], f))
  {
    CountHead(FillLive(s), f);
    assert FillLive(s)[1..] == s.fill[s.fillTaken + 1..];
    CountSnoc(s.kernelRx, s.fill[s.fillTaken], f);
  }

  /** ... and hands it back with a packet in it. */
  lemma DeliverMoves(s: State, i: nat, addr: nat, len: nat, h: Holder, f: nat)
    requires Bounded(s) && Enabled(s, Deliver(i, addr, len))
    ensures Moves(s, Apply(s, Deliver(i, addr, len)), h, f, KernelRx, RxRing, One(s.kernelRx[i], f))
    ensures Apply(s, Deliver(i, addr, len)).rx == s.rx + [Desc(addr, len)]
  {
    CountWithout(s.kernelRx, i, f);
    DeliverCounts(s.rx, addr, len, f);
    SameFrame(addr, s.kernelRx[i], f);
  }

  lemma DeliverCounts(rx: seq<Desc>, addr: nat, len: nat, f: nat)
    ensures Count(Addrs(rx + [Desc(addr, len)]), f) == Count(Addrs(rx), f) + One(addr, f)
  {
    AddrsConcat(rx, [Desc(addr, len)]);
    assert Addrs([Desc(addr, len)]) == [addr];
    CountSnoc(Addrs(rx), addr, f);
  }

  lemma SameFrame(a: nat, b: nat, f: nat)
    requires a / FRAME_SIZE == b / FRAME_SIZE
    ensures One(a, f) == One(b, f)
  {
  }

  /** It takes one frame at a time from the TX ring ... */
  lemma TakeTxMoves(s: State, h: Holder, f: nat)
    requires Bounded(s) && Enabled(s, TakeTx)
    ensures Moves(s, Apply(s, TakeTx), h, f, TxRing, KernelTx, One(s.tx[s.txTaken].addr, f))
  {
    CountHead(TxLive(s), f);
    assert TxLive(s)[1..] == Addrs(s.tx[s.txTaken + 1..]);
    CountSnoc(s.kernelTx, s.tx[s.txTaken].addr, f);
  }

  /** ... and reports it as sent. */
  lemma CompleteMoves(s: State, i: nat, h: Holder, f: nat)
    requires Bounded(s) && Enabled(s, Complete(i))
    ensures Moves(s, Apply(s, Complete(i)), h, f, KernelTx, CompRing, One(s.kernelTx[i], f))
  {
    CountWithout(s.kernelTx, i, f);
    CountSnoc(s.comp, s.kernelTx[i], f);
  }

  lemma TailOfTail<T>(a: seq<T>, k: nat, n: nat)
    requires k <= n <= |a|
    ensures a[k..][n - k..] == a[n..]
  {
  }

  /** Publishing moves no frame; it makes room in the ring. */
  lemma PublishFillMoves(s: State, k: nat, h: Holder, f: nat)
    requires Bounded(s) && k <= s.fillTaken
    ensures var t := Apply(s, PublishFill(k)); Moves(s, t, h, f, FillRing, FillRing, 0) && |t.fill| == |s.fill| - k
  {
    TailOfTail(s.fill, k, s.fillTaken);
    assert Held(Apply(s, PublishFill(k)), h, f) == Held(s, h, f);
  }

  lemma PublishTxMoves(s: State, k: nat, h: Holder, f: nat)
    requires Bounded(s) && k <= s.txTaken
    ensures var t := Apply(s, PublishTx(k)); Moves(s, t, h, f, TxRing, TxRing, 0) && |t.tx| == |s.tx| - k
  {
    TailOfTail(s.tx, k, s.txTaken);
    assert Held(Apply(s, PublishTx(k)), h, f) == Held(s, h, f);
  }

  // ---- No transmit frame gets stuck ----------------------------------------------------

  /** Nothing of the transmit side is anywhere but in the pool or the completion ring. */
  ghost predicate Returned(s: State) {
    s.txBatch == [] && s.txTaken == |s.tx| && s.kernelTx == []
  }

  /** All 12288 transmit frames are in the pool, each of them once. */
  ghost predicate PoolFull(s: State) {
    |s.pool| == 12288 && forall f: nat :: Count(s.pool, f) == if 4096 <= f < 16384 then 1 else 0
  }

  /** Once the kernel has completed all it took, a single reclaim makes the pool whole. */
  lemma ReclaimRestores(s: State)
    requires Inv(s) && Returned(s)
    ensures PoolFull(Apply(s, Reclaim)) && Apply(s, Reclaim).comp == []
  {
    var t := Apply(s, Reclaim);
    StepKeeps(s, Reclaim);
    assert TxLive(s) == [] && Addrs(s.txBatch) == [];
    forall f: nat ensures Count(t.pool, f) == if 4096 <= f < 16384 then 1 else 0 {
      assert TxCount(s, f) == if RING_SIZE <= f < FRAME_COUNT then 1 else 0;
      CountConcat(s.pool, s.comp, f);
      ReclaimMoves(s, TxPool, f);
    }
    ReclaimMoves(s, CompRing, 0);
  }

  lemma {:induction false} Then(s: State, xs: seq<Step>, t: State, ys: seq<Step>, u: State)
    requires Leads(s, xs, t) && Leads(t, ys, u)
    ensures Leads(s, xs + ys, u)
    decreases |xs|
  {
    if xs == [] {
      assert xs + ys == ys;
    } else {
      Then(Apply(s, xs[0]), xs[1..], t, ys, u);
      assert (xs + ys)[1..] == xs[1..] + ys;
    }
  }

  lemma OneStep(s: State, st: Step)
    requires Enabled(s, st)
    ensures Leads(s, [st], Apply(s, st))
  {
    assert [st][1..] == [];
  }

  /** The kernel takes all that is in the TX ring. */
  lemma {:induction false} TakesAll(s: State) returns (steps: seq<Step>, t: State)
    requires Inv(s)
    ensures Leads(s, steps, t) && Inv(t) && t.txBatch == s.txBatch && t.txTaken == |t.tx|
    decreases |s.tx| - s.txTaken
  {
    if s.txTaken == |s.tx| {
      steps, t := [], s;
    } else {
      var u := Apply(s, TakeTx);
      StepKeeps(s, TakeTx);
      OneStep(s, TakeTx);
      var rest;
      rest, t := TakesAll(u);
      Then(s, [TakeTx], u, rest, t);
      steps := [TakeTx] + rest;
    }
  }

  /** It completes all it has, the worker making room in the completion ring each time. */
  lemma {:induction false} CompletesAll(s: State) returns (steps: seq<Step>, t: State)
    requires Inv(s) && s.txBatch == [] && s.txTaken == |s.tx|
    ensures Leads(s, steps, t) && Inv(t) && Returned(t)
    decreases |s.kernelTx|
  {
    if s.kernelTx == [] {
      steps, t := [], s;
    } else {
      var u := Apply(s, Reclaim);
      StepKeeps(s, Reclaim);
      OneStep(s, Reclaim);
      var v := Apply(u, Complete(0));
      StepKeeps(u, Complete(0));
      LeadsOn(s, [Reclaim], u, Complete(0));
      var rest;
      rest, t := CompletesAll(v);
      Then(s, [Reclaim] + [Complete(0)], v, rest, t);
      steps := [Reclaim] + [Complete(0)] + rest;
    }
  }

  /** From every reachable state the worker and the kernel can bring all transmit frames
      back to the pool: whatever happened before, none is stuck. */
  lemma NothingStuck(steps: seq<Step>) returns (more: seq<Step>)
    requires Runnable(Init(), steps)
    ensures Runnable(Exec(Init(), steps), more) && PoolFull(Exec(Exec(Init(), steps), more))
  {
    var s := Exec(Init(), steps);
    InitInv();
    RunKeeps(Init(), steps);
    var s1 := Apply(s, Submit);
    StepKeeps(s, Submit);
    OneStep(s, Submit);
    var xs, s2 := TakesAll(s1);
    Then(s, [Submit], s1, xs, s2);
    var ys, s3 := CompletesAll(s2);
    Then(s, [Submit] + xs, s2, ys, s3);
    LeadsOn(s, [Submit] + xs + ys, s3, Reclaim);
    ReclaimRestores(s3);
    more := [Submit] + xs + ys + [Reclaim];
  }
}
