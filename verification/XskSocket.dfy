/** One worker's AF_XDP socket: the four rings and the TX pool, driven by the
    TX/RX part of `xdp_unified_worker` (src/transport/xdp/receiver.rs). Each method
    is a step (or two) of the ownership system in Umem, carried out on real rings. */
module XskSocket {
  import opened Machine
  import opened Rings
  import U = Umem

  /** What only the kernel knows. */
  datatype KernelSide = KernelSide(fillTaken: nat, kernelRx: seq<nat>, txTaken: nat, kernelTx: seq<nat>)

  class Socket {
    const fill: Ring<nat>
    const comp: Ring<nat>
    const rx: Ring<U.Desc>
    const tx: Ring<U.Desc>
    var txPool: seq<nat>
    /** The descriptors built and not yet submitted, and the frames received and not yet
        handed back: the worker's two scratch vectors. */
    var descs: seq<U.Desc>
    var rxAddrs: seq<nat>
    var kernel: KernelSide
    ghost var lost: seq<nat>

    ghost const Repr: set<object>

    ghost predicate Valid()
      reads this, Repr
    {
      && Repr == {this, fill, comp, rx, tx, fill.descs, comp.descs, rx.descs, tx.descs}
      && fill != comp && rx != tx
      && fill.descs != comp.descs && rx.descs != tx.descs
      && fill.Valid() && comp.Valid() && rx.Valid() && tx.Valid()
      && fill.size == comp.size == rx.size == tx.size == U.RING_SIZE
    }

    /** The socket and kernel as a state of the ownership system. */
    ghost function Abs(): U.State
      reads this, fill, comp, rx, tx
    {
      U.State(fill.queue, kernel.fillTaken, kernel.kernelRx, rx.queue, rxAddrs, lost,
              txPool, descs, tx.queue, kernel.txTaken, kernel.kernelTx, comp.queue)
    }

    /** `Umem::new`, from whatever free-running index the kernel's rings start at. */
    constructor (start: U32)
      ensures Valid() && fresh(Repr)
      ensures Abs() == U.Init() && Settled()
    {
      RingSizeIsPower();
      var f := FilledRing(start);
      var c := new Ring(U.RING_SIZE, start, 0);
      var r := new Ring(U.RING_SIZE, start, U.Desc(0, 0));
      var t := new Ring(U.RING_SIZE, start, U.Desc(0, 0));
      fill, comp, rx, tx := f, c, r, t;
      txPool := U.Spread(U.RING_SIZE, U.FRAME_COUNT - U.RING_SIZE);
      descs, rxAddrs, lost := [], [], [];
      kernel := KernelSide(0, [], 0, []);
      Repr := {this, f, c, r, t, f.descs, c.descs, r.descs, t.descs};
    }

    /** Step 1 of the loop: completed frames go back to the pool. */
    method ReclaimCompletions() returns (egressed: nat)
      requires Valid()
      modifies `txPool, comp`producer, comp`consumer, comp`queue, comp.descs
      ensures Valid()
      ensures Abs() == U.Apply(old(Abs()), U.Reclaim)
      ensures comp.queue == [] && txPool == old(txPool) + old(comp.queue) && egressed == |old(comp.queue)|
    {
      var done, _ := comp.DequeueAll(_ => []);
      if done != [] {
        txPool := txPool + done;
      }
      egressed := |done|;
    }

    /** Step 3, first half: pop `headroom` frames (fewer if the pool runs dry) and build
        their descriptors. `lenOf(j)` is the length of the j-th frame built. */
    method PrepareBatch(headroom: nat, lenOf: nat -> nat)
      requires Valid() && descs == []
      requires forall j :: lenOf(j) <= U.FRAME_SIZE
      modifies `txPool, `descs
      ensures Valid()
      ensures var lens := LensOf(Min(headroom, |old(txPool)|), lenOf);
        U.Enabled(old(Abs()), U.Prepare(lens)) && Abs() == U.Apply(old(Abs()), U.Prepare(lens))
      ensures |descs| == Min(headroom, |old(txPool)|) && txPool == old(txPool)[..|old(txPool)| - |descs|]
      ensures forall j :: 0 <= j < |descs| ==> descs[j] == U.Desc(old(txPool)[|old(txPool)| - 1 - j], lenOf(j))
    {
      txPool, descs := PopFrames(txPool, Min(headroom, |txPool|), lenOf);
    }

    /** Step 3, second half: submit them and give the refused ones back to the pool. */
    method SubmitBatch() returns (enq: nat)
      requires Valid()
      modifies `txPool, `descs, tx`producer, tx`consumer, tx`queue, tx.descs
      ensures Valid() && descs == []
      ensures Abs() == U.Apply(old(Abs()), U.Submit)
      ensures enq == Min(|old(descs)|, U.RING_SIZE - |old(tx.queue)|)
      ensures tx.queue == old(tx.queue) + old(descs)[..enq] && txPool == old(txPool) + U.Addrs(old(descs)[enq..])
    {
      enq := SubmitFrames();
      txPool := txPool + U.Addrs(descs[enq..]);
      descs := [];
    }

    /** `produce_tx`, called only for a non-empty batch. */
    method SubmitFrames() returns (enq: nat)
      requires Valid()
      modifies tx`producer, tx`consumer, tx`queue, tx.descs
      ensures Valid()
      ensures enq == Min(|descs|, U.RING_SIZE - |old(tx.queue)|)
      ensures tx.queue == old(tx.queue) + descs[..enq]
    {
      enq := 0;
      if descs != [] {
        var n, taken := tx.ProduceTx(descs, _ => 0);
        enq := n;
        assert taken + tx.queue == tx.queue;
      }
    }

    /** Step 4, first half: drain the RX ring. */
    method ReceiveBatch() returns (rxds: seq<U.Desc>)
      requires Valid() && rxAddrs == []
      modifies `rxAddrs, rx`producer, rx`consumer, rx`queue, rx.descs
      ensures Valid() && rxds == old(rx.queue) && rx.queue == [] && rxAddrs == U.Addrs(rxds)
      ensures Abs() == U.Apply(old(Abs()), U.ConsumeRx)
    {
      var got, _ := rx.ConsumeRx(_ => []);
      rxds := got;
      rxAddrs := U.Addrs(rxds);
    }

    /** Step 4, second half: once the frames have been parsed, hand them back to the fill
        ring, ignoring how many of them were accepted. */
    method RefillBatch()
      requires Valid()
      modifies `rxAddrs, `lost, fill`producer, fill`consumer, fill`queue, fill.descs
      ensures Valid() && rxAddrs == []
      ensures Abs() == U.Apply(old(Abs()), U.Refill)
      ensures var n := Min(|old(rxAddrs)|, U.RING_SIZE - |old(fill.queue)|);
        fill.queue == old(fill.queue) + old(rxAddrs)[..n] && lost == old(lost) + old(rxAddrs)[n..]
    {
      if rxAddrs != [] {
        var n, taken := fill.EnqueueBatch(rxAddrs, _ => 0);
        assert taken + fill.queue == fill.queue;
        lost := lost + rxAddrs[n..];
        rxAddrs := [];
      }
    }

    // ---- The kernel's side of the rings -------------------------------------------------

    /** Whether the kernel can take the step now, from the indices it sees. */
    method KernelCan(st: U.Step) returns (can: bool)
      requires Valid()
      ensures can <==> KernelStep(st) && U.Enabled(Abs(), st)
    {
      fill.FreeSlots();
      tx.FreeSlots();
      rx.FreeSlots();
      comp.FreeSlots();
      var fills, sends := WrapSub(fill.producer, fill.consumer), WrapSub(tx.producer, tx.consumer);
      var received, done := WrapSub(rx.producer, rx.consumer), WrapSub(comp.producer, comp.consumer);
      can := match st
        case TakeFill => kernel.fillTaken < fills
        case PublishFill(k) => k <= kernel.fillTaken <= fills
        case Deliver(i, addr, len) =>
          i < |kernel.kernelRx| && received < U.RING_SIZE
          && addr / U.FRAME_SIZE == kernel.kernelRx[i] / U.FRAME_SIZE
          && addr % U.FRAME_SIZE + len <= U.FRAME_SIZE
        case TakeTx => kernel.txTaken < sends
        case PublishTx(k) => k <= kernel.txTaken <= sends
        case Complete(i) => i < |kernel.kernelTx| && done < U.RING_SIZE
        case _ => false;
    }

    /** The kernel reads the fill (TX) slot after those it has already taken. */
    method KernelTakes(st: U.Step)
      requires Valid() && (st.TakeFill? || st.TakeTx?) && U.Enabled(Abs(), st)
      modifies `kernel
      ensures Valid() && Abs() == U.Apply(old(Abs()), st)
    {
      if st.TakeFill? {
        var a := fill.Peek(kernel.fillTaken);
        kernel := kernel.(fillTaken := kernel.fillTaken + 1, kernelRx := kernel.kernelRx + [a]);
      } else {
        var d := tx.Peek(kernel.txTaken);
        kernel := kernel.(txTaken := kernel.txTaken + 1, kernelTx := kernel.kernelTx + [d.addr]);
      }
    }

    /** It publishes its consumer index for `k` of them. */
    method KernelPublishes(st: U.Step)
      requires Valid() && (st.PublishFill? || st.PublishTx?) && U.Enabled(Abs(), st)
      modifies `kernel, fill`consumer, fill`queue, tx`consumer, tx`queue
      ensures Valid() && Abs() == U.Apply(old(Abs()), st)
    {
      if st.PublishFill? {
        fill.Release(st.k);
        kernel := kernel.(fillTaken := kernel.fillTaken - st.k);
      } else {
        tx.Release(st.k);
        kernel := kernel.(txTaken := kernel.txTaken - st.k);
      }
    }

    /** It hands back a frame with a packet in it. */
    method KernelDelivers(i: nat, addr: nat, len: nat)
      requires Valid() && U.Enabled(Abs(), U.Deliver(i, addr, len))
      modifies `kernel, rx`producer, rx`queue, rx.descs
      ensures Valid() && Abs() == U.Apply(old(Abs()), U.Deliver(i, addr, len))
    {
      var added := rx.KernelProduce([U.Desc(addr, len)]);
      kernel := kernel.(kernelRx := U.Without(kernel.kernelRx, i));
    }

    /** It reports a transmitted frame. */
    method KernelCompletes(i: nat)
      requires Valid() && U.Enabled(Abs(), U.Complete(i))
      modifies `kernel, comp`producer, comp`queue, comp.descs
      ensures Valid() && Abs() == U.Apply(old(Abs()), U.Complete(i))
    {
      var added := comp.KernelProduce([kernel.kernelTx[i]]);
      kernel := kernel.(kernelTx := U.Without(kernel.kernelTx, i));
    }

    method KernelActs(st: U.Step)
      requires Valid() && KernelStep(st) && U.Enabled(Abs(), st)
      modifies Repr
      ensures Valid() && Abs() == U.Apply(old(Abs()), st)
    {
      match st
      case TakeFill => KernelTakes(st);
      case TakeTx => KernelTakes(st);
      case PublishFill(_) => KernelPublishes(st);
      case PublishTx(_) => KernelPublishes(st);
      case Deliver(i, addr, len) => KernelDelivers(i, addr, len);
      case Complete(i) => KernelCompletes(i);
    }

    // ---- Whole runs ----------------------------------------------------------------------

    /** The worker holds nothing between two parts of its loop. */
    ghost predicate Settled()
      reads this
    {
      descs == [] && rxAddrs == []
    }

    /** Any kernel activity: each wanted step is taken if it is possible at that point. */
    method KernelBurst(wanted: seq<U.Step>, ghost from: U.State, ghost trace: seq<U.Step>) returns (ghost longer: seq<U.Step>)
      requires Valid() && U.Leads(from, trace, Abs())
      modifies Repr
      ensures Valid() && U.Leads(from, longer, Abs())
      ensures descs == old(descs) && rxAddrs == old(rxAddrs) && txPool == old(txPool) && Parts(longer) == Parts(trace)
    {
      longer := trace;
      for i := 0 to |wanted|
        invariant Valid() && U.Leads(from, longer, Abs())
        invariant descs == old(descs) && rxAddrs == old(rxAddrs) && txPool == old(txPool)
        invariant Parts(longer) == Parts(trace)
      {
        var can := KernelCan(wanted[i]);
        if can {
          U.LeadsOn(from, longer, Abs(), wanted[i]);
          PartsSnoc(longer, wanted[i]);
          longer := longer + [wanted[i]];
          KernelActs(wanted[i]);
        }
      }
    }

    /** One iteration of the worker loop, with the kernel at work before each part of it,
        also while frames are being built and while received ones are being parsed. */
    method Iterate(r: Round, ghost from: U.State, ghost trace: seq<U.Step>) returns (ghost longer: seq<U.Step>, n: nat)
      requires Valid() && Settled() && U.Leads(from, trace, Abs()) && forall j :: r.lenOf(j) <= U.FRAME_SIZE
      modifies Repr
      ensures Valid() && Settled() && U.Leads(from, longer, Abs())
      ensures Parts(longer) == Parts(trace) + WorkerPart(n) && n <= r.headroom
    {
      longer := KernelBurst(r.beforeReclaim, from, trace);
      longer := Reclaim(from, longer);
      longer := KernelBurst(r.beforeBuild, from, longer);
      longer, n := Transmit(r, from, longer);
      longer := KernelBurst(r.beforeReceive, from, longer);
      longer := Drain(r, from, longer);
      InARow(Parts(trace), n);
    }

    method Reclaim(ghost from: U.State, ghost trace: seq<U.Step>) returns (ghost longer: seq<U.Step>)
      requires Valid() && Settled() && U.Leads(from, trace, Abs())
      modifies Repr
      ensures Valid() && Settled() && U.Leads(from, longer, Abs())
      ensures Parts(longer) == Parts(trace) + [ReclaimPart]
    {
      U.LeadsOn(from, trace, Abs(), U.Reclaim);
      PartsSnoc(trace, U.Reclaim);
      longer := trace + [U.Reclaim];
      var _ := ReclaimCompletions();
    }

    method Transmit(r: Round, ghost from: U.State, ghost trace: seq<U.Step>) returns (ghost longer: seq<U.Step>, n: nat)
      requires Valid() && Settled() && U.Leads(from, trace, Abs()) && forall j :: r.lenOf(j) <= U.FRAME_SIZE
      modifies Repr
      ensures Valid() && Settled() && U.Leads(from, longer, Abs())
      ensures Parts(longer) == Parts(trace) + [PreparePart(n)] + [SubmitPart] && n == Min(r.headroom, |old(txPool)|)
    {
      n := Min(r.headroom, |txPool|);
      ghost var s, lens := Abs(), LensOf(n, r.lenOf);
      PrepareBatch(r.headroom, r.lenOf);
      U.LeadsOn(from, trace, s, U.Prepare(lens));
      PartsSnoc(trace, U.Prepare(lens));
      longer := KernelBurst(r.beforeSubmit, from, trace + [U.Prepare(lens)]);
      U.LeadsOn(from, longer, Abs(), U.Submit);
      PartsSnoc(longer, U.Submit);
      longer := longer + [U.Submit];
      var _ := SubmitBatch();
    }

    method Drain(r: Round, ghost from: U.State, ghost trace: seq<U.Step>) returns (ghost longer: seq<U.Step>)
      requires Valid() && Settled() && U.Leads(from, trace, Abs())
      modifies Repr
      ensures Valid() && Settled() && U.Leads(from, longer, Abs())
      ensures Parts(longer) == Parts(trace) + [ReceivePart] + [RefillPart]
    {
      U.LeadsOn(from, trace, Abs(), U.ConsumeRx);
      PartsSnoc(trace, U.ConsumeRx);
      var _ := ReceiveBatch();
      longer := KernelBurst(r.beforeRefill, from, trace + [U.ConsumeRx]);
      U.LeadsOn(from, longer, Abs(), U.Refill);
      PartsSnoc(longer, U.Refill);
      longer := longer + [U.Refill];
      RefillBatch();
    }
  }

  /** What the worker does in an iteration, in this order: `n` frames are built. */
  ghost function WorkerPart(n: nat): seq<Part> {
    [ReclaimPart, PreparePart(n), SubmitPart, ReceivePart, RefillPart]
  }

  lemma InARow(done: seq<Part>, n: nat)
    ensures done + [ReclaimPart] + [PreparePart(n)] + [SubmitPart] + [ReceivePart] + [RefillPart] == done + WorkerPart(n)
  {
  }

  /** What it does in iterations that build `built` frames. */
  ghost function AllParts(built: seq<nat>): seq<Part> {
    if built == [] then [] else AllParts(built[..|built| - 1]) + WorkerPart(built[|built| - 1])
  }

  lemma AllPartsSnoc(built: seq<nat>, n: nat)
    ensures AllParts(built + [n]) == AllParts(built) + WorkerPart(n)
  {
    assert (built + [n])[..|built|] == built;
  }

  datatype Part = ReclaimPart | PreparePart(n: nat) | SubmitPart | ReceivePart | RefillPart

  /** The worker's own steps of a run. */
  ghost function Parts(trace: seq<U.Step>): seq<Part> {
    if trace == [] then []
    else
      Parts(trace[..|trace| - 1]) +
      match trace[|trace| - 1]
      case Reclaim => [ReclaimPart]
      case Prepare(lens) => [PreparePart(|lens|)]
      case Submit => [SubmitPart]
      case ConsumeRx => [ReceivePart]
      case Refill => [RefillPart]
      case _ => []
  }

  lemma PartsSnoc(trace: seq<U.Step>, st: U.Step)
    ensures KernelStep(st) ==> Parts(trace + [st]) == Parts(trace)
    ensures st.Reclaim? ==> Parts(trace + [st]) == Parts(trace) + [ReclaimPart]
    ensures st.Prepare? ==> Parts(trace + [st]) == Parts(trace) + [PreparePart(|st.lens|)]
    ensures st.Submit? ==> Parts(trace + [st]) == Parts(trace) + [SubmitPart]
    ensures st.ConsumeRx? ==> Parts(trace + [st]) == Parts(trace) + [ReceivePart]
    ensures st.Refill? ==> Parts(trace + [st]) == Parts(trace) + [RefillPart]
  {
    assert (trace + [st])[..|trace|] == trace;
  }

  /** The steps that are the kernel's. */
  predicate KernelStep(st: U.Step) {
    st.TakeFill? || st.PublishFill? || st.Deliver? || st.TakeTx? || st.PublishTx? || st.Complete?
  }

  /** What happens around one iteration: the kernel's activity before each part of it,
      how many frames may be sent, and their lengths. */
  datatype Round = Round(
    beforeReclaim: seq<U.Step>, beforeBuild: seq<U.Step>, headroom: nat, lenOf: nat -> nat,
    beforeSubmit: seq<U.Step>, beforeReceive: seq<U.Step>, beforeRefill: seq<U.Step>)

  /** A socket from its creation through any number of iterations, with any kernel activity
      in between: what the real rings, pool and kernel hold is a state of a run of the
      ownership system, so every frame has exactly one owner. */
  method RunSocket(start: U32, rounds: seq<Round>) returns (sock: Socket, built: seq<nat>, ghost trace: seq<U.Step>)
    requires forall i, j :: 0 <= i < |rounds| ==> rounds[i].lenOf(j) <= U.FRAME_SIZE
    ensures sock.Valid() && U.Leads(U.Init(), trace, sock.Abs()) && U.Inv(sock.Abs())
    ensures Parts(trace) == AllParts(built)
    ensures |built| == |rounds| && forall i :: 0 <= i < |rounds| ==> built[i] <= rounds[i].headroom
  {
    sock := new Socket(start);
    trace, built := [], [];
    for i := 0 to |rounds|
      invariant fresh(sock.Repr) && sock.Valid() && sock.Settled() && U.Leads(U.Init(), trace, sock.Abs())
      invariant Parts(trace) == AllParts(built)
      invariant |built| == i && forall j :: 0 <= j < i ==> built[j] <= rounds[j].headroom
    {
      var n;
      trace, n := sock.Iterate(rounds[i], U.Init(), trace);
      AllPartsSnoc(built, n);
      built := built + [n];
    }
    U.InitInv();
    U.RunKeeps(U.Init(), trace);
  }

  lemma RingSizeIsPower()
    ensures PowerOfTwo(U.RING_SIZE)
  {
    assert PowerOfTwo(64);
  }

  /** The fill ring as `Umem::new` leaves it: the first RING_SIZE frames queued. */
  method FilledRing(start: U32) returns (f: Ring<nat>)
    ensures fresh(f) && fresh(f.descs) && f.Valid() && f.size == U.RING_SIZE
    ensures f.queue == U.Spread(0, U.RING_SIZE)
  {
    RingSizeIsPower();
    f := new Ring(U.RING_SIZE, start, 0);
    var all := U.Spread(0, U.RING_SIZE);
    var n, taken := f.EnqueueBatch(all, _ => 0);
    assert taken == [] && all[..n] == all;
    assert taken + f.queue == f.queue && [] + all == all;
  }

  /** The pop loop of step 3. */
  method PopFrames(txPool: seq<nat>, take: nat, lenOf: nat -> nat) returns (pool: seq<nat>, descs: seq<U.Desc>)
    requires take <= |txPool|
    ensures pool == txPool[..|txPool| - take]
    ensures descs == U.Popped(txPool, LensOf(take, lenOf))
  {
    pool, descs := txPool, [];
    while |descs| < take
      invariant |descs| <= take
      invariant pool == txPool[..|txPool| - |descs|]
      invariant descs == U.Popped(txPool, LensOf(|descs|, lenOf))
    {
      var addr := pool[|pool| - 1];
      pool := pool[..|pool| - 1];
      descs := descs + [U.Desc(addr, lenOf(|descs|))];
    }
  }

  ghost function LensOf(n: nat, lenOf: nat -> nat): (r: seq<nat>)
    ensures |r| == n && forall j :: 0 <= j < n ==> r[j] == lenOf(j)
  {
    seq(n, j requires 0 <= j < n => lenOf(j))
  }
}
