/** Who owns each UMEM frame: the worker of src/transport/xdp/receiver.rs and the
    kernel as one step system over the four rings, the TX pool and the batches in
    hand. Nothing in the code records ownership; the invariant below does. */
module Umem {
  import opened Machine

  const FRAME_SIZE: nat := 2048
  const FRAME_COUNT: nat := 16384
  const RING_SIZE: nat := 4096

  datatype Desc = Desc(addr: nat, len: nat)

  /** A ring is the sequence from its published consumer to its producer. The
      first `fillTaken` (`txTaken`) entries of the fill (TX) ring have already been
      picked up by the kernel, which has not yet published that it did. */
  datatype State = State(
    fill: seq<nat>, fillTaken: nat, kernelRx: seq<nat>, rx: seq<Desc>, rxBatch: seq<nat>, lost: seq<nat>,
    pool: seq<nat>, txBatch: seq<Desc>, tx: seq<Desc>, txTaken: nat, kernelTx: seq<nat>, comp: seq<nat>)

  datatype Step =
    // the worker loop
    | Reclaim
    | Prepare(lens: seq<nat>)
    | Submit
    | ConsumeRx
    | Refill
    // the kernel
    | TakeFill
    | PublishFill(k: nat)
    | Deliver(i: nat, addr: nat, len: nat)
    | TakeTx
    | PublishTx(k: nat)
    | Complete(i: nat)

  function Addrs(ds: seq<Desc>): (r: seq<nat>)
    ensures |r| == |ds|
    ensures forall i :: 0 <= i < |ds| ==> r[i] == ds[i].addr
  {
    seq(|ds|, i requires 0 <= i < |ds| => ds[i].addr)
  }

  function Spread(first: nat, count: nat): (r: seq<nat>)
    ensures |r| == count && forall i :: 0 <= i < count ==> r[i] == (first + i) * FRAME_SIZE
  {
    seq(count, i requires 0 <= i < count => (first + i) * FRAME_SIZE)
  }

  /** `Umem::new`: frames 0..RING_SIZE go to the fill ring, the rest to the pool. */
  function Init(): State {
    State(Spread(0, RING_SIZE), 0, [], [], [], [],
          Spread(RING_SIZE, FRAME_COUNT - RING_SIZE), [], [], 0, [], [])
  }

  /** `tx_pool.pop()` once per frame to send. */
  function Popped(pool: seq<nat>, lens: seq<nat>): (r: seq<Desc>)
    requires |lens| <= |pool|
    ensures |r| == |lens|
    ensures forall j :: 0 <= j < |lens| ==> r[j] == Desc(pool[|pool| - 1 - j], lens[j])
  {
    seq(|lens|, j requires 0 <= j < |lens| => Desc(pool[|pool| - 1 - j], lens[j]))
  }

  predicate Enabled(s: State, st: Step) {
    match st
    case Reclaim => true
    case Prepare(lens) => s.txBatch == [] && |lens| <= |s.pool| && forall l <- lens :: l <= FRAME_SIZE
    case Submit => true
    case ConsumeRx => s.rxBatch == []
    case Refill => |s.fill| <= RING_SIZE
    case TakeFill => s.fillTaken < |s.fill|
    case PublishFill(k) => k <= s.fillTaken <= |s.fill|
    // The kernel may hand back an address inside the chunk it was given.
    case Deliver(i, addr, len) =>
      i < |s.kernelRx| && |s.rx| < RING_SIZE && addr / FRAME_SIZE == s.kernelRx[i] / FRAME_SIZE
      && addr % FRAME_SIZE + len <= FRAME_SIZE
    case TakeTx => s.txTaken < |s.tx|
    case PublishTx(k) => k <= s.txTaken <= |s.tx|
    case Complete(i) => i < |s.kernelTx| && |s.comp| < RING_SIZE
  }

  function Apply(s: State, st: Step): State
    requires Enabled(s, st)
  {
    match st
    case Reclaim => s.(pool := s.pool + s.comp, comp := [])
    case Prepare(lens) =>
      s.(pool := s.pool[..|s.pool| - |lens|], txBatch := Popped(s.pool, lens))
    case Submit =>
      var n := Min(|s.txBatch|, SatSub(RING_SIZE, |s.tx|));
      s.(tx := s.tx + s.txBatch[..n], pool := s.pool + Addrs(s.txBatch[n..]), txBatch := [])
    case ConsumeRx => s.(rxBatch := Addrs(s.rx), rx := [])
    case Refill =>
      var n := Min(|s.rxBatch|, RING_SIZE - |s.fill|);
      s.(fill := s.fill + s.rxBatch[..n], lost := s.lost + s.rxBatch[n..], rxBatch := [])
    case TakeFill => s.(fillTaken := s.fillTaken + 1, kernelRx := s.kernelRx + [s.fill[s.fillTaken]])
    case PublishFill(k) => s.(fill := s.fill[k..], fillTaken := s.fillTaken - k)
    case Deliver(i, addr, len) => s.(kernelRx := Without(s.kernelRx, i), rx := s.rx + [Desc(addr, len)])
    case TakeTx => s.(txTaken := s.txTaken + 1, kernelTx := s.kernelTx + [s.tx[s.txTaken].addr])
    case PublishTx(k) => s.(tx := s.tx[k..], txTaken := s.txTaken - k)
    case Complete(i) => s.(kernelTx := Without(s.kernelTx, i), comp := s.comp + [s.kernelTx[i]])
  }

  function Without(a: seq<nat>, i: nat): seq<nat>
    requires i < |a|
  {
    a[..i] + a[i + 1..]
  }

  predicate Runnable(s: State, steps: seq<Step>)
    decreases |steps|
  {
    steps == [] || (Enabled(s, steps[0]) && Runnable(Apply(s, steps[0]), steps[1..]))
  }

  function Exec(s: State, steps: seq<Step>): State
    requires Runnable(s, steps)
    decreases |steps|
  {
    if steps == [] then s else Exec(Apply(s, steps[0]), steps[1..])
  }

  /** Some run of the steps `trace` leads from `s` to `t`. */
  predicate Leads(s: State, trace: seq<Step>, t: State) {
    Runnable(s, trace) && Exec(s, trace) == t
  }

  lemma {:induction false} LeadsOn(s: State, trace: seq<Step>, t: State, st: Step)
    requires Leads(s, trace, t) && Enabled(t, st)
    ensures Leads(s, trace + [st], Apply(t, st))
    decreases |trace|
  {
    var longer := trace + [st];
    if trace == [] {
      assert longer[1..] == [];
    } else {
      LeadsOn(Apply(s, trace[0]), trace[1..], t, st);
      assert longer[1..] == trace[1..] + [st];
    }
  }

  // ---- Ownership -----------------------------------------------------------

  /** How often frame `f` occurs among the addresses `a`. */
  ghost function Count(a: seq<nat>, f: nat): nat {
    if a == [] then 0 else Count(a[..|a| - 1], f) + One(a[|a| - 1], f)
  }

  ghost function One(x: nat, f: nat): nat {
    if x / FRAME_SIZE == f then 1 else 0
  }

  ghost function FillLive(s: State): seq<nat>
    requires s.fillTaken <= |s.fill|
  {
    s.fill[s.fillTaken..]
  }

  ghost function TxLive(s: State): seq<nat>
    requires s.txTaken <= |s.tx|
  {
    Addrs(s.tx[s.txTaken..])
  }

  ghost predicate Bounded(s: State) {
    && s.fillTaken <= |s.fill| <= RING_SIZE && |s.rx| <= RING_SIZE
    && s.txTaken <= |s.tx| <= RING_SIZE && |s.comp| <= RING_SIZE
  }

  /** How many holders on the receive side have frame `f`. */
  ghost function RxCount(s: State, f: nat): nat
    requires Bounded(s)
  {
    Count(FillLive(s), f) + Count(s.kernelRx, f) + Count(Addrs(s.rx), f) + Count(s.rxBatch, f) + Count(s.lost, f)
  }

  /** How many holders on the transmit side have frame `f`. */
  ghost function TxCount(s: State, f: nat): nat
    requires Bounded(s)
  {
    Count(s.pool, f) + Count(Addrs(s.txBatch), f) + Count(TxLive(s), f) + Count(s.kernelTx, f) + Count(s.comp, f)
  }

  ghost function RxSize(s: State): int {
    |s.fill| - s.fillTaken + |s.kernelRx| + |s.rx| + |s.rxBatch| + |s.lost|
  }

  ghost function TxSize(s: State): int {
    |s.pool| + |s.txBatch| + |s.tx| - s.txTaken + |s.kernelTx| + |s.comp|
  }

  ghost predicate Aligned(a: seq<nat>) {
    forall i :: 0 <= i < |a| ==> a[i] % FRAME_SIZE == 0
  }

  ghost predicate TxAligned(s: State) {
    && Aligned(s.pool) && Aligned(Addrs(s.txBatch)) && Aligned(Addrs(s.tx))
    && Aligned(s.kernelTx) && Aligned(s.comp)
  }

  lemma {:induction false} CountConcat(a: seq<nat>, b: seq<nat>, f: nat)
    ensures Count(a + b, f) == Count(a, f) + Count(b, f)
    decreases |b|
  {
    if b == [] {
      assert a + b == a;
    } else {
      assert (a + b)[..|a + b| - 1] == a + b[..|b| - 1];
      CountConcat(a, b[..|b| - 1], f);
    }
  }

  lemma CountSplit(a: seq<nat>, n: nat, f: nat)
    requires n <= |a|
    ensures Count(a, f) == Count(a[..n], f) + Count(a[n..], f)
  {
    assert a == a[..n] + a[n..];
    CountConcat(a[..n], a[n..], f);
  }

  lemma CountHead(a: seq<nat>, f: nat)
    requires a != []
    ensures Count(a, f) == One(a[0], f) + Count(a[1..], f)
  {
    CountSplit(a, 1, f);
    assert a[..1] == [a[0]];
    assert [a[0]][..0] == [];
  }

  lemma CountSnoc(a: seq<nat>, x: nat, f: nat)
    ensures Count(a + [x], f) == Count(a, f) + One(x, f)
  {
    assert (a + [x])[..|a + [x]| - 1] == a;
  }

  lemma CountWithout(a: seq<nat>, i: nat, f: nat)
    requires i < |a|
    ensures Count(a, f) == Count(Without(a, i), f) + One(a[i], f)
  {
    CountSplit(a, i, f);
    CountHead(a[i..], f);
    assert a[i..][1..] == a[i + 1..];
    CountConcat(a[..i], a[i + 1..], f);
  }

  lemma TailOfConcat<T>(a: seq<T>, b: seq<T>, k: nat)
    requires k <= |a|
    ensures (a + b)[k..] == a[k..] + b
  {
  }

  lemma AddrsConcat(a: seq<Desc>, b: seq<Desc>)
    ensures Addrs(a + b) == Addrs(a) + Addrs(b)
  {
  }

  /** Popping takes exactly the frames it removes from the pool. */
  lemma {:induction false} PoppedFrames(pool: seq<nat>, lens: seq<nat>, f: nat)
    requires |lens| <= |pool|
    ensures Count(pool, f) == Count(pool[..|pool| - |lens|], f) + Count(Addrs(Popped(pool, lens)), f)
    decreases |lens|
  {
    if lens == [] {
      assert pool[..|pool|] == pool;
    } else {
      var fewer := lens[..|lens| - 1];
      var keep := |pool| - |lens|;
      PoppedFrames(pool, fewer, f);
      var got := Addrs(Popped(pool, lens));
      assert got[..|got| - 1] == Addrs(Popped(pool, fewer));
      assert got[|got| - 1] == pool[keep];
      assert pool[..keep + 1][..keep] == pool[..keep];
    }
  }

  // ---- What every step keeps ---------------------------------------------------

  /** `f` has as many holders on each side after the step as before it. */
  ghost predicate Conserves(s: State, st: Step, f: nat)
    requires Bounded(s) && Enabled(s, st)
  {
    var t := Apply(s, st);
    Bounded(t) && RxCount(t, f) == RxCount(s, f) && TxCount(t, f) == TxCount(s, f)
  }

  lemma ReclaimConserves(s: State, f: nat)
    requires Bounded(s)
    ensures Conserves(s, Reclaim, f)
  {
    CountConcat(s.pool, s.comp, f);
  }

  lemma PrepareConserves(s: State, lens: seq<nat>, f: nat)
    requires Bounded(s) && Enabled(s, Prepare(lens))
    ensures Conserves(s, Prepare(lens), f)
  {
    PoppedFrames(s.pool, lens, f);
  }

  lemma SubmitConserves(s: State, f: nat)
    requires Bounded(s)
    ensures Conserves(s, Submit, f)
  {
    var n := Min(|s.txBatch|, SatSub(RING_SIZE, |s.tx|));
    var sent, back := Addrs(s.txBatch[..n]), Addrs(s.txBatch[n..]);
    assert Addrs(s.txBatch) == sent + back;
    CountConcat(sent, back, f);
    CountConcat(s.pool, back, f);
    TailOfConcat(s.tx, s.txBatch[..n], s.txTaken);
    AddrsConcat(s.tx[s.txTaken..], s.txBatch[..n]);
    CountConcat(TxLive(s), sent, f);
  }

  lemma RefillConserves(s: State, f: nat)
    requires Bounded(s)
    ensures Conserves(s, Refill, f)
  {
    var n := Min(|s.rxBatch|, RING_SIZE - |s.fill|);
    CountSplit(s.rxBatch, n, f);
    CountConcat(s.lost, s.rxBatch[n..], f);
    TailOfConcat(s.fill, s.rxBatch[..n], s.fillTaken);
    CountConcat(FillLive(s), s.rxBatch[..n], f);
  }

  lemma TakeFillConserves(s: State, f: nat)
    requires Bounded(s) && Enabled(s, TakeFill)
    ensures Conserves(s, TakeFill, f)
  {
    CountHead(FillLive(s), f);
    assert FillLive(s)[1..] == s.fill[s.fillTaken + 1..];
    CountSnoc(s.kernelRx, s.fill[s.fillTaken], f);
  }

  lemma PublishConserves(s: State, k: nat, f: nat)
    requires Bounded(s)
    ensures k <= s.fillTaken ==> Conserves(s, PublishFill(k), f)
    ensures k <= s.txTaken ==> Conserves(s, PublishTx(k), f)
  {
  }

  lemma DeliverConserves(s: State, i: nat, addr: nat, len: nat, f: nat)
    requires Bounded(s) && Enabled(s, Deliver(i, addr, len))
    ensures Conserves(s, Deliver(i, addr, len), f)
  {
    CountWithout(s.kernelRx, i, f);
    AddrsConcat(s.rx, [Desc(addr, len)]);
    assert Addrs([Desc(addr, len)]) == [addr];
    CountSnoc(Addrs(s.rx), addr, f);
  }

  lemma TakeTxConserves(s: State, f: nat)
    requires Bounded(s) && Enabled(s, TakeTx)
    ensures Conserves(s, TakeTx, f)
  {
    CountHead(TxLive(s), f);
    assert TxLive(s)[1..] == Addrs(s.tx[s.txTaken + 1..]);
    CountSnoc(s.kernelTx, s.tx[s.txTaken].addr, f);
  }

  lemma CompleteConserves(s: State, i: nat, f: nat)
    requires Bounded(s) && Enabled(s, Complete(i))
    ensures Conserves(s, Complete(i), f)
  {
    CountWithout(s.kernelTx, i, f);
    CountSnoc(s.comp, s.kernelTx[i], f);
  }

  /** No step of either side changes the number of holders of any frame. */
  lemma StepConserves(s: State, st: Step, f: nat)
    requires Bounded(s) && Enabled(s, st)
    ensures Conserves(s, st, f)
  {
    match st
    case Reclaim => ReclaimConserves(s, f);
    case Prepare(lens) => PrepareConserves(s, lens, f);
    case Submit => SubmitConserves(s, f);
    case ConsumeRx => assert Addrs([]) == [];
    case Refill => RefillConserves(s, f);
    case TakeFill => TakeFillConserves(s, f);
    case PublishFill(k) => PublishConserves(s, k, f);
    case Deliver(i, addr, len) => DeliverConserves(s, i, addr, len, f);
    case TakeTx => TakeTxConserves(s, f);
    case PublishTx(k) => PublishConserves(s, k, f);
    case Complete(i) => CompleteConserves(s, i, f);
  }

  lemma StepAligned(s: State, st: Step)
    requires TxAligned(s) && Enabled(s, st)
    ensures TxAligned(Apply(s, st))
  {
  }

  // ---- Every reachable state ---------------------------------------------------

  ghost predicate Inv(s: State) {
    && Bounded(s) && TxAligned(s) && RxSize(s) == RING_SIZE && TxSize(s) == FRAME_COUNT - RING_SIZE
    && (forall f: nat :: RxCount(s, f) == if f < RING_SIZE then 1 else 0)
    && (forall f: nat :: TxCount(s, f) == if RING_SIZE <= f < FRAME_COUNT then 1 else 0)
  }

  lemma {:induction false} SpreadCount(first: nat, count: nat, f: nat)
    ensures Count(Spread(first, count), f) == if first <= f < first + count then 1 else 0
    decreases count
  {
    if count > 0 {
      var a := Spread(first, count);
      assert a[..count - 1] == Spread(first, count - 1);
      SpreadCount(first, count - 1, f);
      assert a[count - 1] / FRAME_SIZE == first + count - 1;
    }
  }

  lemma InitInv()
    ensures Inv(Init())
  {
    var s := Init();
    assert FillLive(s) == s.fill && Addrs([]) == [] && TxLive(s) == [];
    forall f: nat
      ensures RxCount(s, f) == if f < RING_SIZE then 1 else 0
      ensures TxCount(s, f) == if RING_SIZE <= f < FRAME_COUNT then 1 else 0
    {
      SpreadCount(0, RING_SIZE, f);
      SpreadCount(RING_SIZE, FRAME_COUNT - RING_SIZE, f);
    }
  }

  lemma SizesKept(s: State, st: Step)
    requires Bounded(s) && Enabled(s, st)
    ensures RxSize(Apply(s, st)) == RxSize(s) && TxSize(Apply(s, st)) == TxSize(s)
  {
  }

  lemma StepKeeps(s: State, st: Step)
    requires Inv(s) && Enabled(s, st)
    ensures Inv(Apply(s, st))
  {
    StepAligned(s, st);
    SizesKept(s, st);
    StepConserves(s, st, 0);
    var t := Apply(s, st);
    forall f: nat
      ensures RxCount(t, f) == RxCount(s, f)
      ensures TxCount(t, f) == TxCount(s, f)
    {
      StepConserves(s, st, f);
    }
  }

  /** Every run of worker and kernel steps keeps the invariant. */
  lemma {:induction false} RunKeeps(s: State, steps: seq<Step>)
    requires Inv(s) && Runnable(s, steps)
    ensures Inv(Exec(s, steps))
    decreases |steps|
  {
    if steps != [] {
      StepKeeps(s, steps[0]);
      RunKeeps(Apply(s, steps[0]), steps[1..]);
    }
  }

  datatype Holder = FillRing | KernelRx | RxRing | RxBatch | Lost | TxPool | TxBatch | TxRing | KernelTx | CompRing

  ghost function Held(s: State, h: Holder, f: nat): nat
    requires Bounded(s)
  {
    match h
    case FillRing => Count(FillLive(s), f)
    case KernelRx => Count(s.kernelRx, f)
    case RxRing => Count(Addrs(s.rx), f)
    case RxBatch => Count(s.rxBatch, f)
    case Lost => Count(s.lost, f)
    case TxPool => Count(s.pool, f)
    case TxBatch => Count(Addrs(s.txBatch), f)
    case TxRing => Count(TxLive(s), f)
    case KernelTx => Count(s.kernelTx, f)
    case CompRing => Count(s.comp, f)
  }

  predicate ReceiveSide(h: Holder) {
    h.FillRing? || h.KernelRx? || h.RxRing? || h.RxBatch? || h.Lost?
  }

  lemma OneReceiver(s: State, f: nat) returns (owner: Holder)
    requires Bounded(s) && RxCount(s, f) == 1
    ensures ReceiveSide(owner) && Held(s, owner, f) == 1
    ensures forall h :: ReceiveSide(h) && h != owner ==> Held(s, h, f) == 0
  {
    owner :=
      if Count(FillLive(s), f) == 1 then FillRing
      else if Count(s.kernelRx, f) == 1 then KernelRx
      else if Count(Addrs(s.rx), f) == 1 then RxRing
      else if Count(s.rxBatch, f) == 1 then RxBatch
      else Lost;
  }

  lemma OneSender(s: State, f: nat) returns (owner: Holder)
    requires Bounded(s) && TxCount(s, f) == 1
    ensures !ReceiveSide(owner) && Held(s, owner, f) == 1
    ensures forall h :: !ReceiveSide(h) && h != owner ==> Held(s, h, f) == 0
  {
    owner :=
      if Count(s.pool, f) == 1 then TxPool
      else if Count(Addrs(s.txBatch), f) == 1 then TxBatch
      else if Count(TxLive(s), f) == 1 then TxRing
      else if Count(s.kernelTx, f) == 1 then KernelTx
      else CompRing;
  }

  /** Whoever holds a frame shows up in the count of its side. */
  lemma HeldBound(s: State, h: Holder, f: nat)
    requires Bounded(s)
    ensures ReceiveSide(h) ==> Held(s, h, f) <= RxCount(s, f)
    ensures !ReceiveSide(h) ==> Held(s, h, f) <= TxCount(s, f)
  {
  }

  /** In every reachable state each frame is in exactly one place, once: frames
      0..4095 only ever on the receive side, frames 4096..16383 only ever on the
      transmit side, and no transmit frame is ever missing. */
  lemma UniqueOwner(steps: seq<Step>, f: nat) returns (owner: Holder)
    requires Runnable(Init(), steps) && f < FRAME_COUNT
    ensures var s := Exec(Init(), steps);
      Bounded(s) && Held(s, owner, f) == 1 && forall h :: h != owner ==> Held(s, h, f) == 0
    ensures ReceiveSide(owner) <==> f < RING_SIZE
  {
    InitInv();
    RunKeeps(Init(), steps);
    var s := Exec(Init(), steps);
    assert RxCount(s, f) == if f < RING_SIZE then 1 else 0;
    assert TxCount(s, f) == if RING_SIZE <= f < FRAME_COUNT then 1 else 0;
    if f < RING_SIZE { owner := OneReceiver(s, f); } else { owner := OneSender(s, f); }
    forall h | h != owner ensures Held(s, h, f) == 0 { HeldBound(s, h, f); }
  }

  /** Preparing a frame writes the FRAME_SIZE bytes at its pool address: all of
      them lie in the UMEM area and inside that one frame. */
  lemma WritesStayInFrame(steps: seq<Step>, i: nat, byte: nat)
    requires Runnable(Init(), steps)
    requires var s := Exec(Init(), steps); i < |s.pool| && s.pool[i] <= byte < s.pool[i] + FRAME_SIZE
    ensures var s := Exec(Init(), steps);
      byte < FRAME_COUNT * FRAME_SIZE && byte / FRAME_SIZE == s.pool[i] / FRAME_SIZE >= RING_SIZE
  {
    InitInv();
    RunKeeps(Init(), steps);
    var s := Exec(Init(), steps);
    var f := s.pool[i] / FRAME_SIZE;
    CountWithout(s.pool, i, f);
    assert TxCount(s, f) == if RING_SIZE <= f < FRAME_COUNT then 1 else 0;
  }

  // ---- Receive frames that are lost ---------------------------------------------

  /** Returning the batch to the fill ring loses exactly the refused tail, and how
      many that is depends only on how far the kernel's published fill index lags. */
  lemma RefillLoss(s: State)
    requires Inv(s)
    ensures var t := Apply(s, Refill);
      |t.lost| - |s.lost| == Min(|s.rxBatch|, SatSub(s.fillTaken, |s.kernelRx| + |s.rx| + |s.lost|))
  {
  }

  /** Only Refill ever loses a frame. */
  lemma OnlyRefillLoses(s: State, st: Step)
    requires Enabled(s, st)
    ensures s.lost <= Apply(s, st).lost
    ensures !st.Refill? ==> Apply(s, st).lost == s.lost
  {
  }

  /** The fill entries the kernel has picked up without publishing that it did. */
  ghost function Unpublished(s: State): seq<nat> {
    s.fill[..Min(s.fillTaken, |s.fill|)]
  }

  /** The kernel publishes that it took a frame before it hands that frame back. */
  ghost predicate Prompt(s: State, st: Step) {
    st.Deliver? && st.i < |s.kernelRx| ==>
      forall a <- Unpublished(s) :: a / FRAME_SIZE != s.kernelRx[st.i] / FRAME_SIZE
  }

  ghost predicate AllPrompt(s: State, steps: seq<Step>)
    requires Runnable(s, steps)
    decreases |steps|
  {
    steps == [] || (Prompt(s, steps[0]) && AllPrompt(Apply(s, steps[0]), steps[1..]))
  }

  /** What is taken but unpublished is still inside the kernel. */
  ghost predicate Inside(s: State) {
    forall f: nat :: Count(Unpublished(s), f) <= Count(s.kernelRx, f)
  }

  lemma {:induction false} CountPositive(a: seq<nat>, f: nat) returns (i: nat)
    requires Count(a, f) > 0
    ensures i < |a| && a[i] / FRAME_SIZE == f
    decreases |a|
  {
    if a[|a| - 1] / FRAME_SIZE == f { i := |a| - 1; } else { i := CountPositive(a[..|a| - 1], f); }
  }

  /** Frame for frame fewer means fewer. */
  lemma {:induction false} FewerFrames(a: seq<nat>, b: seq<nat>)
    requires forall f: nat :: Count(a, f) <= Count(b, f)
    ensures |a| <= |b|
    decreases |a|
  {
    if a != [] {
      var x := a[|a| - 1];
      assert Count(a, x / FRAME_SIZE) <= Count(b, x / FRAME_SIZE);
      var i := CountPositive(b, x / FRAME_SIZE);
      forall f: nat ensures Count(a[..|a| - 1], f) <= Count(Without(b, i), f) {
        assert Count(a, f) <= Count(b, f);
        CountWithout(b, i, f);
      }
      FewerFrames(a[..|a| - 1], Without(b, i));
    }
  }

  lemma InsideStep(s: State, st: Step, f: nat)
    requires Bounded(s) && Inside(s) && Enabled(s, st) && Prompt(s, st)
    ensures Count(Unpublished(Apply(s, st)), f) <= Count(Apply(s, st).kernelRx, f)
  {
    var t := Apply(s, st);
    assert Count(Unpublished(s), f) <= Count(s.kernelRx, f);
    match st
    case TakeFill =>
      assert Unpublished(t) == Unpublished(s) + [s.fill[s.fillTaken]];
      CountSnoc(Unpublished(s), s.fill[s.fillTaken], f);
      CountSnoc(s.kernelRx, s.fill[s.fillTaken], f);
    case PublishFill(k) =>
      assert Unpublished(t) == Unpublished(s)[k..];
      CountSplit(Unpublished(s), k, f);
    case Deliver(i, _, _) =>
      CountWithout(s.kernelRx, i, f);
      if Count(Unpublished(s), f) > 0 {
        var j := CountPositive(Unpublished(s), f);
        assert Unpublished(s)[j] in Unpublished(s);
      }
    case _ => assert Unpublished(t) == Unpublished(s);
  }

  lemma {:induction false} PromptRunLosesNothing(s: State, steps: seq<Step>)
    requires Inv(s) && Inside(s) && s.lost == []
    requires Runnable(s, steps) && AllPrompt(s, steps)
    ensures Exec(s, steps).lost == []
    decreases |steps|
  {
    if steps != [] {
      var st := steps[0];
      StepKeeps(s, st);
      if st.Refill? {
        FewerFrames(Unpublished(s), s.kernelRx);
        RefillLoss(s);
      } else {
        OnlyRefillLoses(s, st);
      }
      forall f: nat ensures Count(Unpublished(Apply(s, st)), f) <= Count(Apply(s, st).kernelRx, f) {
        InsideStep(s, st, f);
      }
      PromptRunLosesNothing(Apply(s, st), steps[1..]);
    }
  }

  /** With a kernel that publishes first no frame is ever lost, in any run. */
  lemma NoLossIfPrompt(steps: seq<Step>)
    requires Runnable(Init(), steps) && AllPrompt(Init(), steps)
    ensures Exec(Init(), steps).lost == []
  {
    InitInv();
    PromptRunLosesNothing(Init(), steps);
  }

  /** Without that the code does lose frames: one packet delivered before the fill
      index is published, and the ignored result of `enqueue_batch` drops frame 0. */
  lemma LateKernelLosesAFrame() returns (steps: seq<Step>)
    ensures Runnable(Init(), steps) && Exec(Init(), steps).lost == [0]
  {
    var s0 := Init();
    var s1 := Apply(s0, TakeFill);
    var s2 := Apply(s1, Deliver(0, 0, 60));
    var s3 := Apply(s2, ConsumeRx);
    assert s3.rxBatch == [0];
    var s4 := Apply(s3, Refill);
    assert s4.lost == [0];
    steps := [TakeFill, Deliver(0, 0, 60), ConsumeRx, Refill];
    assert steps[3..] == [Refill] && steps[3..][1..] == [];
    assert steps[2..][1..] == steps[3..] && steps[1..][1..] == steps[2..];
    assert Runnable(s3, steps[3..]);
    assert Runnable(s2, steps[2..]);
    assert Runnable(s1, steps[1..]);
  }
}
