/** Sharded counting: every sender and receiver thread counts into locals and adds them to
    the shared statistics now and then (`throughput_udp_tx` and `throughput_udp_rx` in
    src/transport/udp.rs, `xdp_unified_worker` in src/transport/xdp/receiver.rs). In the
    whole-run methods `others` is what the other threads add to the shared counters in
    between. */
module Sharded {
  import opened Machine
  import opened Bytes
  import opened SlotTable
  import opened Stats
  import opened Parser

  const FLUSH_STATS: nat := 16
  const RX_BATCH: nat := 256
  const FLUSH_N: nat := 1024
  const RC_FLUSH: nat := 4096

  // ---- Reply counts by rcode ------------------------------------------------------------

  function Nothing(): Rcodes {
    Rcodes(Answers(0, 0), Failures(0, 0, 0))
  }

  ghost function CodesIn(stats: StatsCollector): Rcodes
    reads stats`noerror, stats`nxdomain, stats`servfail, stats`refused, stats`other
  {
    Rcodes(Answers(stats.noerror, stats.nxdomain), Failures(stats.servfail, stats.refused, stats.other))
  }

  lemma PlusLaws(a: Rcodes, b: Rcodes, c: Rcodes)
    ensures a.Plus(Nothing()) == a
    ensures a.Plus(b).Plus(c) == a.Plus(b.Plus(c))
    ensures a.Plus(b).Total() == a.Total() + b.Total()
  {
  }

  lemma LastFirst(a: Rcodes, b: Rcodes, c: Rcodes, d: Rcodes)
    ensures a.Plus(b).Plus(c).Plus(d) == a.Plus(b.Plus(d)).Plus(c)
  {
  }

  lemma NoneLeft(a: Rcodes, rc: Rcodes)
    requires rc.Total() == 0
    ensures rc == Nothing() && a.Plus(rc) == a
  {
  }

  /** One reply in one of the five bins. */
  function Bin(r: Rcodes, rcode: nat): Rcodes {
    match rcode
    case 0 => r.(ok := r.ok.(no := r.ok.no + 1))
    case 3 => r.(ok := r.ok.(nx := r.ok.nx + 1))
    case 2 => r.(bad := r.bad.(sf := r.bad.sf + 1))
    case 5 => r.(bad := r.bad.(rf := r.bad.rf + 1))
    case _ => r.(bad := r.bad.(ot := r.bad.ot + 1))
  }

  function Tally(codes: seq<nat>): Rcodes {
    if codes == [] then Nothing() else Bin(Tally(codes[..|codes| - 1]), codes[|codes| - 1])
  }

  function PlusAll(rs: seq<Rcodes>): Rcodes {
    if rs == [] then Nothing() else PlusAll(rs[..|rs| - 1]).Plus(rs[|rs| - 1])
  }

  /** Counting each reply at once, straight into the shared counters. */
  ghost function Direct(c: Counters, codes: seq<nat>): Counters {
    if codes == [] then c else Replied(Direct(c, codes[..|codes| - 1]), codes[|codes| - 1])
  }

  lemma TallySnoc(codes: seq<nat>, rcode: nat)
    ensures Tally(codes + [rcode]) == Bin(Tally(codes), rcode)
  {
    assert (codes + [rcode])[..|codes|] == codes;
  }

  lemma BinPlus(a: Rcodes, b: Rcodes, rcode: nat)
    ensures Bin(a.Plus(b), rcode) == a.Plus(Bin(b, rcode))
  {
  }

  lemma {:induction false} TallyConcat(a: seq<nat>, b: seq<nat>)
    ensures Tally(a + b) == Tally(a).Plus(Tally(b))
    decreases |b|
  {
    if b == [] {
      assert a + b == a;
      PlusLaws(Tally(a), Nothing(), Nothing());
    } else {
      assert a + b == (a + b[..|b| - 1]) + [b[|b| - 1]];
      TallySnoc(a + b[..|b| - 1], b[|b| - 1]);
      TallyConcat(a, b[..|b| - 1]);
      BinPlus(Tally(a), Tally(b[..|b| - 1]), b[|b| - 1]);
    }
  }

  /** `rc` with the first `i` of the codes counted on top. */
  ghost function Counted(rc: Rcodes, codes: seq<nat>, i: nat): Rcodes
    requires i <= |codes|
  {
    rc.Plus(Tally(codes[..i]))
  }

  lemma CountedNone(rc: Rcodes, codes: seq<nat>)
    ensures Counted(rc, codes, 0) == rc
  {
  }

  lemma CountedNext(rc: Rcodes, codes: seq<nat>, i: nat)
    requires i < |codes|
    ensures Counted(rc, codes, i + 1) == Bin(Counted(rc, codes, i), codes[i])
  {
    assert codes[..i + 1] == codes[..i] + [codes[i]];
    TallySnoc(codes[..i], codes[i]);
    BinPlus(rc, Tally(codes[..i]), codes[i]);
  }

  lemma CountedAll(rc: Rcodes, codes: seq<nat>)
    ensures Counted(rc, codes, |codes|) == rc.Plus(Tally(codes))
    ensures rc.Plus(Tally(codes)).Total() == rc.Total() + |codes|
  {
    assert codes[..|codes|] == codes;
    TallyTotal(codes);
  }

  /** Adding a tally in bulk is counting its replies one by one. */
  lemma {:induction false} TallyIsDirect(c: Counters, codes: seq<nat>)
    ensures Direct(c, codes).rcodes == c.rcodes.Plus(Tally(codes))
    ensures Direct(c, codes).traffic.completed == c.traffic.completed + |codes| == c.traffic.completed + Tally(codes).Total()
    decreases |codes|
  {
    if codes != [] { TallyIsDirect(c, codes[..|codes| - 1]); }
  }

  lemma {:induction false} TallyTotal(codes: seq<nat>)
    ensures Tally(codes).Total() == |codes|
    decreases |codes|
  {
    if codes != [] { TallyTotal(codes[..|codes| - 1]); }
  }

  /** What the exit flush of `rc` leaves in the shared counters. */
  lemma ExitFlush(start: Rcodes, flushed: Rcodes, rc: Rcodes, codes: seq<nat>, others: Rcodes)
    requires flushed.Plus(rc) == Tally(codes)
    ensures start.Plus(flushed).Plus(others).Plus(rc) == start.Plus(Tally(codes)).Plus(others)
    ensures flushed.Total() + rc.Total() == |codes|
    ensures rc.Total() == 0 ==> rc == Nothing() && flushed == Tally(codes)
  {
    TallyTotal(codes);
    PlusLaws(flushed, rc, rc);
    LastFirst(start, flushed, others, rc);
    if rc.Total() == 0 { NoneLeft(flushed, rc); }
  }

  /** One more round on top of what the shared counters held: `o` from other threads, then
      this thread's flush of `d`. */
  lemma OneRound(start: Rcodes, f: Rcodes, ps: Rcodes, o: Rcodes, d: Rcodes)
    ensures start.Plus(f).Plus(ps).Plus(o).Plus(d) == start.Plus(f.Plus(d)).Plus(ps.Plus(o))
  {
  }

  method AddRcodes(stats: StatsCollector, rc: Rcodes)
    modifies stats`completed, stats`noerror, stats`nxdomain, stats`servfail, stats`refused, stats`other
    ensures CodesIn(stats) == old(CodesIn(stats)).Plus(rc)
    ensures stats.completed == old(stats.completed) + rc.Total() && stats.Unbinned() == old(stats.Unbinned())
  {
    stats.RecordRcodes(rc.ok.no, rc.ok.nx, rc.bad.sf, rc.bad.rf, rc.bad.ot);
  }

  // ---- The kernel-UDP sender ---------------------------------------------------------------

  /** One pass of the loop: whether a batch was due, and the result of `sendmmsg`. */
  datatype Pass = Pass(due: bool, result: int)

  function SentBy(p: Pass): nat {
    if p.due && p.result > 0 then p.result else 0
  }

  function SentByAll(ps: seq<Pass>): nat {
    if ps == [] then 0 else SentByAll(ps[..|ps| - 1]) + SentBy(ps[|ps| - 1])
  }

  class UdpSender {
    const stats: StatsCollector
    var localSent: nat
    var batchCtr: nat
    /** How much this thread has sent, and how much of it is in the shared total. */
    ghost var issued: nat
    ghost var flushed: nat

    /** At every point shared and local counts make up everything sent, and the shared
        total lags by less than sixteen batches. */
    ghost predicate Valid()
      reads this
    {
      && flushed + localSent == issued
      && localSent <= TX_BATCH * (batchCtr % FLUSH_STATS)
    }

    constructor (s: StatsCollector)
      ensures Valid() && stats == s && issued == 0
    {
      stats := s;
      localSent, batchCtr, issued, flushed := 0, 0, 0, 0;
    }

    method Iterate(p: Pass)
      requires Valid() && p.result <= TX_BATCH
      modifies this, stats`sent
      ensures Valid() && issued == old(issued) + SentBy(p)
      ensures stats.sent - old(stats.sent) == flushed - old(flushed)
    {
      if p.due {
        if p.result > 0 {
          localSent := localSent + p.result;
          issued := issued + p.result;
        }
        batchCtr := batchCtr + 1;
      }
      if batchCtr % FLUSH_STATS == 0 && localSent > 0 {
        stats.IncSentN(localSent);
        flushed := flushed + localSent;
        localSent := 0;
      }
    }

    /** The whole thread: after it the shared total alone holds everything it sent. */
    method Run(passes: seq<Pass>, others: seq<nat>)
      requires Valid() && issued == 0 && |others| == |passes|
      requires forall i :: 0 <= i < |passes| ==> passes[i].result <= TX_BATCH
      modifies this, stats`sent
      ensures stats.sent == old(stats.sent) + SentByAll(passes) + Sum(others)
    {
      for i := 0 to |passes|
        invariant Valid() && issued == SentByAll(passes[..i])
        invariant stats.sent == old(stats.sent) + flushed + Sum(others[..i])
      {
        stats.IncSentN(others[i]);
        Iterate(passes[i]);
        assert passes[..i + 1][..i] == passes[..i] && others[..i + 1][..i] == others[..i];
      }
      assert passes[..|passes|] == passes && others[..|others|] == others;
      if localSent > 0 { stats.IncSentN(localSent); }
    }
  }

  // ---- The kernel-UDP receiver ----------------------------------------------------------------

  /** Whatever does not parse as a response counts under `other`. */
  function UdpCode(b: seq<Byte>): nat {
    match ParseResponse(b)
    case Some(r) => r.rcode
    case None => 16
  }

  function UdpCodes(bs: seq<seq<Byte>>): seq<nat> {
    seq(|bs|, i requires 0 <= i < |bs| => UdpCode(bs[i]))
  }

  class UdpReceiver {
    const stats: StatsCollector
    var rc: Rcodes
    var sinceFlush: nat
    ghost var tally: Rcodes
    ghost var flushed: Rcodes

    ghost predicate Valid()
      reads this
    {
      && flushed.Plus(rc) == tally
      && sinceFlush < FLUSH_STATS && rc.Total() <= 256 * sinceFlush
    }

    constructor (s: StatsCollector)
      ensures Valid() && stats == s && tally == Nothing() && flushed == Nothing()
    {
      stats := s;
      rc, flushed := Nothing(), Nothing();
      sinceFlush, tally := 0, Nothing();
    }

    method CountOne(b: seq<Byte>)
      modifies `rc
      ensures rc == Bin(old(rc), UdpCode(b))
    {
      rc := match ParseResponse(b)
            case Some(r) => Bin(rc, r.rcode)
            case None => Bin(rc, 16);
    }

    method CountBatch(batch: seq<seq<Byte>>)
      modifies `rc
      ensures rc == old(rc).Plus(Tally(UdpCodes(batch))) && rc.Total() == old(rc).Total() + |batch|
    {
      ghost var codes := UdpCodes(batch);
      CountedNone(rc, codes);
      for i := 0 to |batch|
        invariant rc == Counted(old(rc), codes, i)
      {
        CountOne(batch[i]);
        CountedNext(old(rc), codes, i);
      }
      CountedAll(old(rc), codes);
    }

    /** An empty batch (timeout or error) is skipped. */
    method Iterate(batch: seq<seq<Byte>>) returns (ghost d: Rcodes)
      requires Valid() && |batch| <= RX_BATCH
      modifies this, stats
      ensures Valid() && tally == old(tally).Plus(Tally(UdpCodes(batch)))
      ensures flushed == old(flushed).Plus(d) && CodesIn(stats) == old(CodesIn(stats)).Plus(d)
      ensures stats.completed == old(stats.completed) + d.Total() && stats.Unbinned() == old(stats.Unbinned())
    {
      d := Nothing();
      ghost var t := Tally(UdpCodes(batch));
      PlusLaws(flushed, rc, t);
      PlusLaws(old(CodesIn(stats)), rc, t);
      if batch == [] {
        PlusLaws(tally, rc, t);
        return;
      }
      CountBatch(batch);
      tally := tally.Plus(t);
      sinceFlush := sinceFlush + 1;
      if sinceFlush >= FLUSH_STATS {
        AddRcodes(stats, rc);
        d, flushed := rc, flushed.Plus(rc);
        rc, sinceFlush := Nothing(), 0;
        PlusLaws(flushed, rc, t);
      }
    }

    /** The whole thread: after it the shared counters alone hold every reply it saw. */
    method Run(batches: seq<seq<seq<Byte>>>, others: seq<Rcodes>)
      requires Valid() && tally == flushed == Nothing() && |others| == |batches|
      requires forall i :: 0 <= i < |batches| ==> |batches[i]| <= RX_BATCH
      modifies this, stats
      ensures CodesIn(stats) == old(CodesIn(stats)).Plus(Tally(Received(batches))).Plus(PlusAll(others))
      ensures stats.Unbinned() == old(stats.Unbinned())
    {
      for i := 0 to |batches|
        invariant Valid() && tally == Tally(Received(batches[..i]))
        invariant CodesIn(stats) == old(CodesIn(stats)).Plus(flushed).Plus(PlusAll(others[..i]))
        invariant stats.Unbinned() == old(stats.Unbinned())
      {
        ReceivedNext(batches, others, i);
        ghost var f := flushed;
        AddRcodes(stats, others[i]);
        ghost var d := Iterate(batches[i]);
        OneRound(old(CodesIn(stats)), f, PlusAll(others[..i]), others[i], d);
      }
      assert batches[..|batches|] == batches && others[..|others|] == others;
      ExitFlush(old(CodesIn(stats)), flushed, rc, Received(batches), PlusAll(others));
      if rc.Total() > 0 { AddRcodes(stats, rc); }
    }
  }

  /** The codes of all datagrams received, oldest first. */
  ghost function Received(batches: seq<seq<seq<Byte>>>): seq<nat> {
    if batches == [] then [] else Received(batches[..|batches| - 1]) + UdpCodes(batches[|batches| - 1])
  }

  lemma ReceivedNext(batches: seq<seq<seq<Byte>>>, others: seq<Rcodes>, i: nat)
    requires i < |batches| == |others|
    ensures Tally(Received(batches[..i + 1])) == Tally(Received(batches[..i])).Plus(Tally(UdpCodes(batches[i])))
    ensures PlusAll(others[..i + 1]) == PlusAll(others[..i]).Plus(others[i])
  {
    assert batches[..i + 1][..i] == batches[..i] && others[..i + 1][..i] == others[..i];
    TallyConcat(Received(batches[..i]), UdpCodes(batches[i]));
  }

  // ---- The XDP worker (open loop) ----------------------------------------------------------------

  /** Only frames that parse as DNS responses count. */
  function XdpCodes(frames: seq<seq<Byte>>): seq<nat> {
    if frames == [] then []
    else
      var init := XdpCodes(frames[..|frames| - 1]);
      match ParseDnsFromFrame(frames[|frames| - 1])
      case Some(r) => init + [r.rcode]
      case None => init
  }

  class XdpShard {
    const stats: StatsCollector
    var subAcc: nat
    var rc: Rcodes
    var rcAcc: nat
    ghost var issued: nat
    ghost var flushedSent: nat
    ghost var tally: Rcodes
    ghost var flushed: Rcodes

    ghost predicate Valid()
      reads this
    {
      && flushedSent + subAcc == issued && subAcc < FLUSH_N
      && flushed.Plus(rc) == tally && rc.Total() == rcAcc < RC_FLUSH
    }

    constructor (s: StatsCollector)
      ensures Valid() && stats == s && issued == flushedSent == 0 && tally == flushed == Nothing()
    {
      stats := s;
      subAcc, rcAcc, issued, flushedSent := 0, 0, 0, 0;
      rc, flushed, tally := Nothing(), Nothing(), Nothing();
    }

    /** `enq` descriptors were submitted to the TX ring. */
    method Submitted(enq: nat)
      requires Valid()
      modifies `subAcc, `issued, `flushedSent, stats`sent
      ensures Valid() && issued == old(issued) + enq
      ensures stats.sent - old(stats.sent) == flushedSent - old(flushedSent)
    {
      subAcc := subAcc + enq;
      issued := issued + enq;
      if subAcc >= FLUSH_N {
        stats.IncSentN(subAcc);
        flushedSent := flushedSent + subAcc;
        subAcc := 0;
      }
    }

    method CountFrames(frames: seq<seq<Byte>>)
      modifies `rc, `rcAcc
      ensures rc == old(rc).Plus(Tally(XdpCodes(frames)))
      ensures rcAcc - old(rcAcc) == |XdpCodes(frames)| == rc.Total() - old(rc).Total()
    {
      for i := 0 to |frames|
        invariant rc == old(rc).Plus(Tally(XdpCodes(frames[..i]))) && rcAcc == old(rcAcc) + |XdpCodes(frames[..i])|
      {
        assert frames[..i + 1][..i] == frames[..i];
        match ParseDnsFromFrame(frames[i]) {
          case Some(r) =>
            TallySnoc(XdpCodes(frames[..i]), r.rcode);
            rc := Bin(rc, r.rcode);
            rcAcc := rcAcc + 1;
          case None =>
        }
      }
      assert frames[..|frames|] == frames;
      TallyTotal(XdpCodes(frames));
    }

    method Drained(frames: seq<seq<Byte>>) returns (ghost d: Rcodes)
      requires Valid()
      modifies `rc, `rcAcc, `tally, `flushed, stats
      ensures Valid() && tally == old(tally).Plus(Tally(XdpCodes(frames)))
      ensures flushed == old(flushed).Plus(d) && CodesIn(stats) == old(CodesIn(stats)).Plus(d)
      ensures stats.completed == old(stats.completed) + d.Total() && stats.Unbinned() == old(stats.Unbinned())
      ensures stats.sent == old(stats.sent)
    {
      d := Nothing();
      ghost var t := Tally(XdpCodes(frames));
      PlusLaws(flushed, rc, t);
      PlusLaws(old(CodesIn(stats)), rc, t);
      if frames == [] {
        PlusLaws(tally, rc, t);
        return;
      }
      CountFrames(frames);
      tally := tally.Plus(t);
      if rcAcc >= RC_FLUSH {
        d := Flush();
      }
    }

    /** Adds the local tally to the shared counters and starts it over. */
    method Flush() returns (ghost d: Rcodes)
      modifies `rc, `rcAcc, `flushed, stats
      ensures d == old(rc) && rc == Nothing() && rcAcc == 0
      ensures flushed == old(flushed).Plus(d) && flushed.Plus(rc) == old(flushed.Plus(rc))
      ensures CodesIn(stats) == old(CodesIn(stats)).Plus(d) && stats.sent == old(stats.sent)
      ensures stats.completed == old(stats.completed) + d.Total() && stats.Unbinned() == old(stats.Unbinned())
    {
      AddRcodes(stats, rc);
      d, flushed := rc, flushed.Plus(rc);
      rc, rcAcc := Nothing(), 0;
    }

    /** On top of `sent` and `codes` the shared counters hold what the other threads added
        (`otherSent`, `others`) and what this worker has flushed of its own. */
    ghost predicate Accounts(sent: nat, codes: Rcodes, otherSent: nat, others: Rcodes)
      reads this, stats
    {
      && Valid() && stats.sent == sent + flushedSent + otherSent
      && CodesIn(stats) == codes.Plus(flushed).Plus(others)
    }

    method TakeTurn(t: Turn, ghost sent: nat, ghost codes: Rcodes, ghost otherSent: nat, ghost others: Rcodes)
      requires Accounts(sent, codes, otherSent, others)
      modifies this, stats
      ensures Accounts(sent, codes, otherSent + t.otherSent, others.Plus(t.otherCodes))
      ensures issued == old(issued) + t.enq && tally == old(tally).Plus(Tally(XdpCodes(t.frames)))
      ensures stats.Unbinned() == old(stats.Unbinned())
    {
      ghost var f := flushed;
      AddOthers(stats, t);
      Submitted(t.enq);
      ghost var d := Drained(t.frames);
      OneRound(codes, f, others, t.otherCodes, d);
    }

    /** The flush on leaving the loop. */
    method Finish()
      requires Valid()
      modifies stats
      ensures stats.sent == old(stats.sent) + subAcc
      ensures CodesIn(stats) == old(CodesIn(stats)).Plus(rc) && stats.completed == old(stats.completed) + rcAcc
      ensures stats.Unbinned() == old(stats.Unbinned())
    {
      if subAcc > 0 { stats.IncSentN(subAcc); }
      assert CodesIn(stats) == old(CodesIn(stats)) && stats.completed == old(stats.completed);
      if rcAcc > 0 {
        AddRcodes(stats, rc);
      } else {
        assert rc == Nothing();
      }
    }
  }

  /** What happens between two looks at a worker's counters. */
  datatype Turn = Turn(enq: nat, frames: seq<seq<Byte>>, otherSent: nat, otherCodes: Rcodes)

  ghost function Enqueued(ts: seq<Turn>): nat {
    if ts == [] then 0 else Enqueued(ts[..|ts| - 1]) + ts[|ts| - 1].enq
  }

  ghost function OtherSent(ts: seq<Turn>): nat {
    if ts == [] then 0 else OtherSent(ts[..|ts| - 1]) + ts[|ts| - 1].otherSent
  }

  ghost function Codes(ts: seq<Turn>): seq<nat> {
    if ts == [] then [] else Codes(ts[..|ts| - 1]) + XdpCodes(ts[|ts| - 1].frames)
  }

  ghost function OtherCodes(ts: seq<Turn>): Rcodes {
    if ts == [] then Nothing() else OtherCodes(ts[..|ts| - 1]).Plus(ts[|ts| - 1].otherCodes)
  }

  lemma CodesNext(ts: seq<Turn>, t: Turn)
    ensures Tally(Codes(ts + [t])) == Tally(Codes(ts)).Plus(Tally(XdpCodes(t.frames)))
    ensures OtherCodes(ts + [t]) == OtherCodes(ts).Plus(t.otherCodes)
    ensures Enqueued(ts + [t]) == Enqueued(ts) + t.enq && OtherSent(ts + [t]) == OtherSent(ts) + t.otherSent
  {
    assert (ts + [t])[..|ts|] == ts;
    TallyConcat(Codes(ts), XdpCodes(t.frames));
  }

  /** What the other threads add meanwhile. */
  method AddOthers(stats: StatsCollector, t: Turn)
    modifies stats
    ensures stats.sent == old(stats.sent) + t.otherSent
    ensures CodesIn(stats) == old(CodesIn(stats)).Plus(t.otherCodes) && stats.Unbinned() == old(stats.Unbinned())
  {
    stats.IncSentN(t.otherSent);
    AddRcodes(stats, t.otherCodes);
  }

  /** An open-loop XDP worker from start to exit: for every sequence of batch sizes and
      received frames the shared totals end up with everything it submitted and with
      every reply under its own rcode, and `completed` rises with the rcode counters. */
  method RunShard(stats: StatsCollector, turns: seq<Turn>)
    modifies stats
    ensures stats.sent == old(stats.sent) + Enqueued(turns) + OtherSent(turns)
    ensures CodesIn(stats) == old(CodesIn(stats)).Plus(Tally(Codes(turns))).Plus(OtherCodes(turns))
    ensures stats.Unbinned() == old(stats.Unbinned())
  {
    var w := new XdpShard(stats);
    for i := 0 to |turns|
      invariant w.stats == stats && w.tally == Tally(Codes(turns[..i])) && w.issued == Enqueued(turns[..i])
      invariant w.Accounts(old(stats.sent), old(CodesIn(stats)), OtherSent(turns[..i]), OtherCodes(turns[..i]))
      invariant stats.Unbinned() == old(stats.Unbinned())
    {
      CodesNext(turns[..i], turns[i]);
      assert turns[..i + 1] == turns[..i] + [turns[i]];
      w.TakeTurn(turns[i], old(stats.sent), old(CodesIn(stats)), OtherSent(turns[..i]), OtherCodes(turns[..i]));
    }
    assert turns[..|turns|] == turns;
    ExitFlush(old(CodesIn(stats)), w.flushed, w.rc, Codes(turns), OtherCodes(turns));
    w.Finish();
  }
}
