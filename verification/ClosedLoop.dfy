/** The kernel-UDP closed-loop worker (`closed_loop_unified`, src/transport/udp.rs): one
    thread that fills the pipe up to the outstanding gate, drains replies and sweeps
    timeouts. Clock readings, send results and received datagrams are inputs. */
module ClosedLoop {
  import opened Machine
  import opened SlotTable
  import opened Stats
  import opened Pacing
  import opened Bytes
  import A = Accounting

  const SWEEP_INTERVAL_NS: nat := 10_000_000

  datatype SendResult = Accepted | Refused(wouldBlock: bool)

  /** `Duration::from_secs_f64(1.0 / qps)`, to the nearest nanosecond. */
  function StepNs(qps: nat): nat {
    if qps == 0 then 0 else (2_000_000_000 + qps) / (2 * qps)
  }

  /** The step times the rate is a second, as nearly as whole nanoseconds allow. */
  lemma StepIsNearest(qps: nat)
    requires qps > 0
    ensures 2_000_000_000 - qps < 2 * (StepNs(qps) * qps) <= 2_000_000_000 + qps
  {
    var a, b := 2_000_000_000 + qps, 2 * qps;
    assert a == b * (a / b) + a % b;
    assert 2 * (StepNs(qps) * qps) == b * (a / b);
  }

  /** The k-th reading of a clock that never goes back. */
  ghost predicate Monotone(clock: nat -> nat) {
    forall i: nat, j: nat :: i <= j ==> clock(i) <= clock(j)
  }

  /** The whole run is over before anything can time out or be swept. */
  ghost predicate Quick(clock: nat -> nat, timeoutNs: nat) {
    forall i: nat :: clock(i) < Max(timeoutNs, SWEEP_INTERVAL_NS)
  }

  lemma NothingSwept(slots: seq<nat>, now: nat, timeoutNs: nat)
    requires now < timeoutNs
    ensures Swept(slots, now, timeoutNs, true) == slots
  {
  }

  ghost predicate TimelySamples(samples: multiset<nat>, timeoutNs: nat) {
    forall x <- samples :: 1 <= x <= Max(timeoutNs / 1000, 1)
  }

  /** The gate and the occupancy of the table. */
  datatype PipeState = PipeState(outstanding: nat, overwritten: nat, marks: seq<nat>, nextId: nat)

  /** One pass of the send loop with a query due: an id is spent either way. */
  ghost function Pass(p: PipeState, accepted: bool): PipeState
    requires |p.marks| == SLOTS && p.nextId < SLOTS
  {
    var q := p.(nextId := (p.nextId + 1) % SLOTS);
    if !accepted then q
    else q.(outstanding := p.outstanding + 1, overwritten := p.overwritten + p.marks[p.nextId],
            marks := p.marks[p.nextId := 1])
  }

  /** The send loop without a rate limit: passes until the gate is full or the socket refuses. */
  ghost function Fill(p: PipeState, maxOutstanding: nat, results: nat -> SendResult, k: nat): (q: PipeState)
    requires |p.marks| == SLOTS && p.nextId < SLOTS
    ensures |q.marks| == SLOTS && q.nextId < SLOTS
    decreases SatSub(maxOutstanding, p.outstanding)
  {
    if p.outstanding >= maxOutstanding then p
    else if results(k).Refused? then Pass(p, false)
    else Fill(Pass(p, true), maxOutstanding, results, k + 1)
  }

  lemma FillNext(p: PipeState, q: PipeState, maxOutstanding: nat, results: nat -> SendResult, k: nat, sent: bool)
    requires |p.marks| == |q.marks| == SLOTS && p.nextId < SLOTS && q.nextId < SLOTS
    requires p.outstanding < maxOutstanding && q == Pass(p, sent) && (sent <==> results(k).Accepted?)
    ensures Fill(p, maxOutstanding, results, k) == if sent then Fill(q, maxOutstanding, results, k + 1) else q
  {
  }

  /** A received datagram, if it is long enough, frees the slot of its id. */
  ghost function Reply(p: PipeState, b: seq<Byte>): (q: PipeState)
    requires |p.marks| == SLOTS
    ensures |q.marks| == SLOTS && q.nextId == p.nextId && q.overwritten == p.overwritten
  {
    if |b| < 4 then p
    else
      var id := Word(b[0], b[1]);
      p.(outstanding := SatSub(p.outstanding, p.marks[id]), marks := p.marks[id := 0])
  }

  ghost function Replies(p: PipeState, batch: seq<seq<Byte>>): (q: PipeState)
    requires |p.marks| == SLOTS
    ensures |q.marks| == SLOTS && q.nextId == p.nextId && q.overwritten == p.overwritten
    decreases |batch|
  {
    if batch == [] then p else Reply(Replies(p, batch[..|batch| - 1]), batch[|batch| - 1])
  }

  /** What one datagram does to the table and the counters: if it is long enough and its id
      has an entry, the slot is freed and a reply counted under the low four bits of the
      fourth byte, as a sample unless it is late. */
  ghost function Book(es: seq<nat>, c: Counters, b: seq<Byte>, recvNs: nat, timeoutNs: nat): (r: (seq<nat>, Counters))
    requires |es| == SLOTS
    ensures |r.0| == SLOTS
  {
    if |b| < 4 then (es, c)
    else
      var id := (b[0] as nat) * 256 + (b[1] as nat);
      if es[id] == 0 then (es, c)
      else (es[id := 0], Matched(c, b[3] % 16, SatSub(recvNs, es[id]), timeoutNs))
  }

  ghost function BookAll(es: seq<nat>, c: Counters, batch: seq<seq<Byte>>, recvNs: nat, timeoutNs: nat): (r: (seq<nat>, Counters))
    requires |es| == SLOTS
    ensures |r.0| == SLOTS
    decreases |batch|
  {
    if batch == [] then (es, c)
    else
      var (fs, d) := BookAll(es, c, batch[..|batch| - 1], recvNs, timeoutNs);
      Book(fs, d, batch[|batch| - 1], recvNs, timeoutNs)
  }

  lemma BookNext(es: seq<nat>, c: Counters, batch: seq<seq<Byte>>, i: nat, recvNs: nat, timeoutNs: nat)
    requires |es| == SLOTS && i < |batch|
    ensures var (fs, d) := BookAll(es, c, batch[..i], recvNs, timeoutNs);
      BookAll(es, c, batch[..i + 1], recvNs, timeoutNs) == Book(fs, d, batch[i], recvNs, timeoutNs)
  {
    assert batch[..i + 1][..i] == batch[..i];
  }

  /** The slots of all ids in a batch are free afterwards. */
  ghost predicate AllAnswered(es: seq<nat>, batch: seq<seq<Byte>>) {
    |es| == SLOTS && forall i :: 0 <= i < |batch| && |batch[i]| >= 4 ==> es[Word(batch[i][0], batch[i][1])] == 0
  }

  lemma {:induction false} BookedAreFree(es: seq<nat>, c: Counters, batch: seq<seq<Byte>>, recvNs: nat, timeoutNs: nat)
    requires |es| == SLOTS
    ensures AllAnswered(BookAll(es, c, batch, recvNs, timeoutNs).0, batch)
    decreases |batch|
  {
    if batch != [] {
      var init := batch[..|batch| - 1];
      BookedAreFree(es, c, init, recvNs, timeoutNs);
      assert forall i :: 0 <= i < |init| ==> init[i] == batch[i];
    }
  }

  /** No entry is as old as the timeout at `now`. */
  ghost predicate NoneOld(es: seq<nat>, now: nat, timeoutNs: nat) {
    forall i :: 0 <= i < |es| && es[i] != 0 ==> SatSub(now, es[i]) < timeoutNs
  }

  lemma SweptSlots(es: seq<nat>, now: nat, timeoutNs: nat, batch: seq<seq<Byte>>)
    ensures NoneOld(Swept(es, now, timeoutNs, true), now, timeoutNs)
    ensures AllAnswered(es, batch) ==> AllAnswered(Swept(es, now, timeoutNs, true), batch)
  {
  }

  lemma RepliesNext(p: PipeState, batch: seq<seq<Byte>>, i: nat)
    requires |p.marks| == SLOTS && i < |batch|
    ensures Replies(p, batch[..i + 1]) == Reply(Replies(p, batch[..i]), batch[i])
  {
    assert batch[..i + 1][..i] == batch[..i];
  }

  lemma MarksFreed(slots: seq<nat>, id: nat)
    requires id < |slots|
    ensures Marks(slots[id := 0]) == Marks(slots)[id := 0]
  {
  }

  lemma MarksAfter(was: seq<nat>, now: seq<nat>, id: nat, sent: bool)
    requires |was| == |now| == SLOTS && id < SLOTS && (sent ==> now[id] != 0)
    requires forall i :: 0 <= i < SLOTS && !(sent && i == id) ==> now[i] == was[i]
    ensures Marks(now) == if sent then Marks(was)[id := 1] else Marks(was)
  {
  }

  class Worker {
    const maxOutstanding: nat
    const timeoutNs: nat
    const ramp: bool
    const table: Table
    const stats: StatsCollector
    const clock: nat -> nat
    var ticks: nat
    var outstanding: nat
    var nextId: nat
    var qps: nat
    var step: nat
    var nextSend: nat
    var lastSweep: nat
    /** How many entries were overwritten by a send reusing their id. */
    ghost var overwritten: nat
    /** The sends made since the rate last changed. */
    ghost var sends: seq<Send>
    ghost var start: nat
    /** Every access to the shared counters, as a run of `Accounting` from `origin`. */
    ghost const origin: A.Fleet
    ghost var log: seq<A.Event>

    ghost predicate Logged()
      reads `outstanding, `log, stats
    {
      A.Recorded(origin, log, Seen(stats.View(), outstanding))
    }

    /** The gate counts every occupied slot, and every entry ever overwritten. */
    ghost predicate Gated()
      reads `outstanding, `overwritten, table.slots
    {
      && table.Valid() && outstanding == Occupied(table.Entries()) + overwritten
      && outstanding <= maxOutstanding && overwritten < Max(maxOutstanding, 1)
    }

    ghost predicate OnSchedule()
      reads `qps, `step, `sends, `start, `nextSend
    {
      step == StepNs(qps) && (qps > 0 ==> Paced(sends, step, start, nextSend))
    }

    ghost predicate WellCounted()
      reads stats
    {
      Consistent(stats.View()) && TimelySamples(stats.samples, timeoutNs)
    }

    ghost predicate Valid()
      reads this, table.slots, stats
    {
      Monotone(clock) && nextId < SLOTS && Gated() && OnSchedule() && WellCounted() && Logged()
    }

    /** What the send loop works on. */
    ghost function Pipe(): PipeState
      reads this, table.slots
    {
      PipeState(outstanding, overwritten, Marks(table.Entries()), nextId)
    }

    /** The last sweep was less than 10 ms before the last clock reading. */
    ghost predicate SweptInTime()
      reads this
    {
      ticks >= 1 && SatSub(clock(ticks - 1), lastSweep) < SWEEP_INTERVAL_NS
    }

    /** The last thing that happened was a sweep, and it left nothing as old as the timeout. */
    ghost predicate SweptNow()
      reads this, table.slots
    {
      ticks >= 2 && lastSweep == clock(ticks - 1) && NoneOld(table.Entries(), clock(ticks - 2), timeoutNs)
    }

    /** What this worker leaves unchanged in the shared counters. */
    ghost function Balance(): int
      reads this, stats
    {
      stats.sent - stats.completed - stats.timeouts - outstanding
    }

    constructor (maxOutstanding: nat, timeoutNs: nat, ramp: bool, qps: nat, firstId: nat, clock: nat -> nat, stats: StatsCollector)
      requires Monotone(clock) && firstId < SLOTS
      requires Consistent(stats.View()) && TimelySamples(stats.samples, timeoutNs)
      ensures Valid() && fresh(table.slots) && this.stats == stats
      ensures this.maxOutstanding == maxOutstanding && this.timeoutNs == timeoutNs && this.clock == clock
      ensures outstanding == overwritten == 0 && sends == [] && this.qps == qps && this.ramp == ramp && start == clock(0)
      ensures nextId == firstId && origin == Seen(stats.View(), 0)
    {
      this.maxOutstanding, this.timeoutNs, this.ramp := maxOutstanding, timeoutNs, ramp;
      this.clock, this.stats := clock, stats;
      this.qps, step, nextId := qps, StepNs(qps), firstId;
      nextSend, lastSweep, ticks := clock(0), clock(1), 2;
      outstanding, overwritten, sends, start := 0, 0, [], clock(0);
      origin, log := Seen(stats.View(), 0), [];
      var t := new Table();
      table := t;
      new;
      A.NothingRecorded(origin);
    }

    method Now() returns (t: nat)
      modifies `ticks
      ensures t == clock(old(ticks)) && ticks == old(ticks) + 1
    {
      t := clock(ticks);
      ticks := ticks + 1;
    }

    /** Writes the send time into the slot of `id`, over an older one if need be. */
    method Enter(id: nat, sendNs: nat)
      requires table.Valid() && id < SLOTS
      modifies `overwritten, table.slots
      ensures overwritten == old(overwritten) + Mark(old(table.slots[id]))
      ensures table.Entries() == old(table.Entries())[id := Max(sendNs, 1)]
      ensures Occupied(table.Entries()) + overwritten == old(Occupied(table.Entries()) + overwritten) + 1
      ensures Occupied(table.Entries()) >= 1
    {
      overwritten := overwritten + Mark(table.slots[id]);
      table.Insert(id, sendNs);
      OccupiedPositive(table.Entries(), id);
    }

    /** Books an accepted send. */
    method Register(id: nat, sendNs: nat)
      requires Valid() && id < SLOTS && outstanding < maxOutstanding
      modifies `outstanding, `overwritten, `log, table.slots, stats`sent
      ensures Valid() && Balance() == old(Balance())
      ensures outstanding == old(outstanding) + 1
      ensures stats.sent == old(stats.sent) + 1
      ensures overwritten == old(overwritten) + Mark(old(table.slots[id]))
      ensures table.Entries() == old(table.Entries())[id := Max(sendNs, 1)]
    {
      Enter(id, sendNs);
      CountSend();
    }

    method CountSend()
      requires Logged()
      modifies `outstanding, `log, stats`sent
      ensures Logged() && outstanding == old(outstanding) + 1 && stats.sent == old(stats.sent) + 1
    {
      ghost var c := stats.View();
      LogSend(origin, log, c, outstanding);
      outstanding := outstanding + 1;
      stats.IncSent();
      log := log + SendEvents();
      assert stats.View() == c.(traffic := c.traffic.(sent := c.traffic.sent + 1));
    }

    /** A send the socket refused: an error, unless it would only have blocked. */
    method Refuse(wouldBlock: bool)
      requires Valid()
      modifies `log, stats`errors
      ensures Valid()
      ensures stats.errors == old(stats.errors) + if wouldBlock then 0 else 1
    {
      if !wouldBlock {
        LogError(origin, log, stats.View(), outstanding);
        stats.IncError();
        log := log + [A.CountError(0)];
      }
    }

    /** The next id, and the clock reading just before the send. */
    method NextId() returns (id: nat, sendNs: nat)
      requires Valid()
      modifies `nextId, `ticks
      ensures Valid() && id == old(nextId) && nextId == (old(nextId) + 1) % SLOTS
      ensures sendNs == clock(old(ticks)) && ticks == old(ticks) + 1
    {
      id := nextId;
      nextId := (nextId + 1) % SLOTS;
      sendNs := Now();
    }

    /** Moves the schedule on after a send, allowing at most 2 ms of catch-up. */
    method Reschedule(ghost at: nat)
      requires Valid() && qps > 0 && nextSend <= at && ticks > 0 && at == clock(ticks - 1)
      modifies `ticks, `nextSend, `sends
      ensures Valid() && ticks == old(ticks) + 1
      ensures nextSend == if old(nextSend) + step + 2_000_000 < clock(old(ticks)) then clock(old(ticks)) else old(nextSend) + step
      ensures sends == old(sends) + [Send(old(nextSend), at, clock(old(ticks)), nextSend)]
    {
      Advance(at);
    }

    method Advance(ghost at: nat)
      requires Monotone(clock) && OnSchedule() && qps > 0 && nextSend <= at && ticks > 0 && at == clock(ticks - 1)
      modifies `ticks, `nextSend, `sends
      ensures OnSchedule() && ticks == old(ticks) + 1
      ensures nextSend == if old(nextSend) + step + 2_000_000 < clock(old(ticks)) then clock(old(ticks)) else old(nextSend) + step
      ensures sends == old(sends) + [Send(old(nextSend), at, clock(old(ticks)), nextSend)]
    {
      ghost var due := nextSend;
      nextSend := nextSend + step;
      var now := Now();
      if nextSend + CATCH_UP_NS < now {
        nextSend := now;
      }
      PacedSnoc(sends, step, start, due, Send(due, at, now, nextSend));
      sends := sends + [Send(due, at, now, nextSend)];
    }

    /** The gate lets the next clock reading through. */
    ghost predicate Due()
      reads this
    {
      qps == 0 || nextSend <= clock(ticks)
    }

    /** One pass of the send loop: not due, refused by the socket, or sent. */
    method SendOne(result: SendResult) returns (sent: bool)
      requires Valid() && outstanding < maxOutstanding
      modifies `ticks, `nextId, `nextSend, `sends, `outstanding, `overwritten, `log, table.slots, stats`sent, stats`errors
      ensures Valid() && Balance() == old(Balance())
      ensures sent <==> old(Due()) && result.Accepted?
      ensures nextId == if old(Due()) then (old(nextId) + 1) % SLOTS else old(nextId)
      ensures stats.sent == old(stats.sent) + if sent then 1 else 0
      ensures stats.errors == old(stats.errors) + if old(Due()) && result == Refused(false) then 1 else 0
      ensures outstanding == old(outstanding) + if sent then 1 else 0
      ensures overwritten == old(overwritten) + if sent then Mark(old(table.slots[nextId])) else 0
      ensures sent ==> table.slots[old(nextId)] == Max(clock(if qps > 0 then old(ticks) + 1 else old(ticks)), 1)
      ensures !sent && result.Accepted? ==> qps > 0 && ticks > 0 && clock(ticks - 1) < nextSend
      ensures forall i :: 0 <= i < SLOTS && !(sent && i == old(nextId)) ==> table.slots[i] == old(table.slots[i])
      ensures old(sends) <= sends && (qps > 0 ==> |sends| == |old(sends)| + if sent then 1 else 0)
    {
      sent := false;
      if qps > 0 {
        var now := Now();
        if now < nextSend { return; }
      }
      sent := SendDue(result);
    }

    /** The rest of that pass, once the query is due. */
    method SendDue(result: SendResult) returns (sent: bool)
      requires Valid() && outstanding < maxOutstanding && Due()
      modifies `ticks, `nextId, `nextSend, `sends, `outstanding, `overwritten, `log, table.slots, stats`sent, stats`errors
      ensures Valid() && Balance() == old(Balance())
      ensures sent <==> result.Accepted?
      ensures nextId == (old(nextId) + 1) % SLOTS
      ensures stats.sent == old(stats.sent) + if sent then 1 else 0
      ensures stats.errors == old(stats.errors) + if result == Refused(false) then 1 else 0
      ensures outstanding == old(outstanding) + if sent then 1 else 0
      ensures overwritten == old(overwritten) + if sent then Mark(old(table.slots[nextId])) else 0
      ensures sent ==> table.slots[old(nextId)] == Max(clock(old(ticks)), 1)
      ensures forall i :: 0 <= i < SLOTS && !(sent && i == old(nextId)) ==> table.slots[i] == old(table.slots[i])
      ensures old(sends) <= sends && (qps > 0 ==> |sends| == |old(sends)| + if sent then 1 else 0)
    {
      var id, sendNs := NextId();
      if result.Refused? {
        Refuse(result.wouldBlock);
        return false;
      }
      Register(id, sendNs);
      sent := true;
      if qps > 0 {
        Reschedule(sendNs);
      }
    }

    /** The same pass, as far as the send loop is concerned. */
    method Attempt(result: SendResult) returns (sent: bool)
      requires Valid() && outstanding < maxOutstanding
      modifies `ticks, `nextId, `nextSend, `sends, `outstanding, `overwritten, `log, table.slots, stats`sent, stats`errors
      ensures Valid() && Balance() == old(Balance())
      ensures stats.sent == old(stats.sent) + if sent then 1 else 0
      ensures old(sends) <= sends && (qps > 0 ==> |sends| == |old(sends)| + if sent then 1 else 0)
      ensures outstanding == old(outstanding) + (if sent then 1 else 0) && overwritten >= old(overwritten)
      ensures !sent && result.Accepted? ==> qps > 0 && ticks > 0 && clock(ticks - 1) < nextSend
      ensures qps == 0 ==> (sent <==> result.Accepted?) && Pipe() == Pass(old(Pipe()), sent)
    {
      ghost var was := table.Entries();
      sent := SendOne(result);
      MarksAfter(was, table.Entries(), old(nextId), sent);
    }

    /** The send loop: fills the pipe up to the gate until not due or refused.
        `results(k)` is what the socket says to the k-th attempt. */
    method SendFill(results: nat -> SendResult) returns (didSend: bool)
      requires Valid()
      modifies `ticks, `nextId, `nextSend, `sends, `outstanding, `overwritten, `log, table.slots, stats`sent, stats`errors
      ensures Valid() && Balance() == old(Balance())
      ensures overwritten >= old(overwritten) && old(sends) <= sends
      ensures didSend <==> stats.sent > old(stats.sent)
      ensures stats.sent - old(stats.sent) == outstanding - old(outstanding) >= 0
      ensures qps > 0 ==> |sends| - |old(sends)| == stats.sent - old(stats.sent)
      ensures qps == 0 && (forall k :: results(k) == Accepted) ==> outstanding == maxOutstanding
      ensures (forall k :: results(k) == Accepted) ==>
        outstanding == maxOutstanding || (qps > 0 && ticks > 0 && clock(ticks - 1) < nextSend)
      ensures qps == 0 ==> Pipe() == Fill(old(Pipe()), maxOutstanding, results, 0)
    {
      didSend := false;
      ghost var filled := Fill(Pipe(), maxOutstanding, results, 0);
      var k := 0;
      while outstanding < maxOutstanding
        invariant Valid() && Balance() == old(Balance())
        invariant overwritten >= old(overwritten) && old(sends) <= sends
        invariant didSend <==> stats.sent > old(stats.sent)
        invariant stats.sent - old(stats.sent) == outstanding - old(outstanding) >= 0
        invariant qps > 0 ==> |sends| - |old(sends)| == stats.sent - old(stats.sent)
        invariant qps == 0 ==> Fill(Pipe(), maxOutstanding, results, k) == filled
        decreases maxOutstanding - outstanding
      {
        ghost var p := Pipe();
        var sent := Attempt(results(k));
        if qps == 0 { FillNext(p, Pipe(), maxOutstanding, results, k, sent); }
        if !sent { break; }
        didSend, k := true, k + 1;
      }
    }

    /** One received datagram, at `recvNs`. */
    method ReceiveOne(b: seq<Byte>, recvNs: nat)
      requires Valid()
      modifies `outstanding, `log, table.slots, stats
      ensures Valid() && Balance() == old(Balance())
      ensures stats.sent == old(stats.sent)
      ensures |b| < 4 ==>
        outstanding == old(outstanding) && stats.View() == old(stats.View()) && table.Entries() == old(table.Entries())
      ensures |b| >= 4 ==>
        var id := Word(b[0], b[1]);
        var stamp := old(table.slots[id]);
        && outstanding == old(outstanding) - Mark(stamp)
        && table.Entries() == old(table.Entries())[id := 0]
        && stats.View() == (if stamp == 0 then old(stats.View())
                            else Matched(old(stats.View()), b[3] % 16, SatSub(recvNs, stamp), timeoutNs))
    {
      if |b| < 4 { return; }
      var id := Word(b[0], b[1]);
      var rcode := b[3] % 16;
      var s := table.slots[id];
      ghost var was := table.Entries();
      if s != 0 {
        Settle(id, rcode, SatSub(recvNs, s));
      } else {
        assert was == was[id := 0];
      }
    }

    /** The same, as far as the gate and the table are concerned. */
    method TakeIn(b: seq<Byte>, recvNs: nat)
      requires Valid()
      modifies `outstanding, `log, table.slots, stats
      ensures Valid() && Balance() == old(Balance())
      ensures stats.sent == old(stats.sent) && Pipe() == Reply(old(Pipe()), b)
      ensures (table.Entries(), stats.View()) == Book(old(table.Entries()), old(stats.View()), b, recvNs, timeoutNs)
    {
      ghost var was := table.Entries();
      ReceiveOne(b, recvNs);
      if |b| >= 4 {
        MarksFreed(was, Word(b[0], b[1]));
        assert was[Word(b[0], b[1])] == 0 ==> was[Word(b[0], b[1]) := 0] == was;
      }
    }

    /** Takes the entry a reply has matched and counts it. */
    method Settle(id: nat, rcode: nat, rttNs: nat)
      requires Valid() && id < SLOTS && table.slots[id] != 0
      modifies `outstanding, `log, table.slots, stats
      ensures Valid() && Balance() == old(Balance())
      ensures stats.sent == old(stats.sent) && outstanding == old(outstanding) - 1
      ensures table.Entries() == old(table.Entries())[id := 0]
      ensures stats.View() == Matched(old(stats.View()), rcode, rttNs, timeoutNs)
    {
      Free(id);
      CountAnswer(rcode, rttNs);
    }

    method CountAnswer(rcode: nat, rttNs: nat)
      requires Logged() && WellCounted() && outstanding >= 1
      modifies `outstanding, `log, stats
      ensures Logged() && outstanding == old(outstanding) - 1
      ensures stats.View() == Matched(old(stats.View()), rcode, rttNs, timeoutNs)
      ensures Consistent(stats.View()) && TimelySamples(stats.samples, timeoutNs)
      ensures stats.sent == old(stats.sent) && stats.completed == old(stats.completed) + 1
      ensures stats.timeouts == old(stats.timeouts)
    {
      LogReply(origin, log, stats.View(), outstanding, rcode, rttNs, timeoutNs);
      outstanding := SatSub(outstanding, 1);
      CountReply(rcode, rttNs);
      log := log + A.ReplyEvents(0, rcode, SampleOf(rttNs, timeoutNs));
    }

    method Free(id: nat)
      requires table.Valid() && id < SLOTS && table.slots[id] != 0
      modifies table.slots
      ensures table.Entries() == old(table.Entries())[id := 0]
      ensures Occupied(table.Entries()) == old(Occupied(table.Entries())) - 1
    {
      var _ := table.Take(id);
    }

    /** A matched reply: a sample if within the timeout, otherwise only counted. */
    method CountReply(rcode: nat, rttNs: nat)
      requires Consistent(stats.View()) && TimelySamples(stats.samples, timeoutNs)
      modifies stats
      ensures stats.View() == Matched(old(stats.View()), rcode, rttNs, timeoutNs)
      ensures Consistent(stats.View()) && TimelySamples(stats.samples, timeoutNs)
      ensures stats.sent == old(stats.sent) && stats.completed == old(stats.completed) + 1
      ensures stats.timeouts == old(stats.timeouts)
    {
      if rttNs <= timeoutNs {
        stats.RecordResponse(rcode, Max(rttNs / 1000, 1));
        assert rttNs / 1000 <= timeoutNs / 1000;
      } else {
        match rcode {
          case 0 => stats.RecordRcodes(1, 0, 0, 0, 0);
          case 3 => stats.RecordRcodes(0, 1, 0, 0, 0);
          case 2 => stats.RecordRcodes(0, 0, 1, 0, 0);
          case 5 => stats.RecordRcodes(0, 0, 0, 1, 0);
          case _ => stats.RecordRcodes(0, 0, 0, 0, 1);
        }
      }
    }

    /** Drains one batch of datagrams. */
    method Receive(batch: seq<seq<Byte>>)
      requires Valid()
      modifies `ticks, `outstanding, `log, table.slots, stats
      ensures Valid() && Balance() == old(Balance())
      ensures stats.sent == old(stats.sent)
      ensures Pipe() == Replies(old(Pipe()), batch)
      ensures (table.Entries(), stats.View()) ==
        BookAll(old(table.Entries()), old(stats.View()), batch, clock(old(ticks)), timeoutNs)
    {
      if batch == [] { return; }
      ghost var p, es, c := Pipe(), table.Entries(), stats.View();
      var recvNs := Now();
      var i := 0;
      while i < |batch|
        invariant i <= |batch| && Valid() && Balance() == old(Balance())
        invariant stats.sent == old(stats.sent) && Pipe() == Replies(p, batch[..i])
        invariant (table.Entries(), stats.View()) == BookAll(es, c, batch[..i], recvNs, timeoutNs)
      {
        RepliesNext(p, batch, i);
        BookNext(es, c, batch, i, recvNs, timeoutNs);
        TakeIn(batch[i], recvNs);
        i := i + 1;
      }
      assert batch[..i] == batch;
    }

    /** The timeout sweep, at most every 10 ms. */
    method SweepTimeouts()
      requires Valid()
      modifies `ticks, `outstanding, `lastSweep, `log, table.slots, stats`timeouts
      ensures Valid() && Balance() == old(Balance())
      ensures outstanding <= old(outstanding)
      ensures stats.timeouts - old(stats.timeouts) == old(outstanding) - outstanding
      ensures table.Entries() ==
        if SatSub(clock(old(ticks)), old(lastSweep)) < SWEEP_INTERVAL_NS then old(table.Entries())
        else Swept(old(table.Entries()), clock(old(ticks) + 1), timeoutNs, true)
      ensures if SatSub(clock(old(ticks)), old(lastSweep)) < SWEEP_INTERVAL_NS
        then ticks == old(ticks) + 1 && lastSweep == old(lastSweep)
        else ticks == old(ticks) + 3 && lastSweep == clock(old(ticks) + 2)
    {
      var now := Now();
      if SatSub(now, lastSweep) < SWEEP_INTERVAL_NS { return; }
      Sweep();
    }

    method Sweep()
      requires Valid()
      modifies `ticks, `outstanding, `lastSweep, `log, table.slots, stats`timeouts
      ensures Valid() && Balance() == old(Balance())
      ensures outstanding <= old(outstanding)
      ensures ticks == old(ticks) + 2 && lastSweep == clock(old(ticks) + 1)
      ensures table.Entries() == Swept(old(table.Entries()), clock(old(ticks)), timeoutNs, true)
    {
      var nowNs := Now();
      Expire(nowNs);
      lastSweep := Now();
    }

    /** Frees the slots whose queries have timed out and reports them. */
    method Expire(nowNs: nat)
      requires Valid()
      modifies `outstanding, `log, table.slots, stats`timeouts
      ensures Valid() && Balance() == old(Balance())
      ensures outstanding <= old(outstanding)
      ensures table.Entries() == Swept(old(table.Entries()), nowNs, timeoutNs, true)
    {
      var freed := table.Sweep(nowNs, timeoutNs, true);
      CountTimeouts(freed);
    }

    method CountTimeouts(freed: nat)
      requires Logged() && freed <= outstanding
      modifies `outstanding, `log, stats`timeouts
      ensures Logged() && outstanding == old(outstanding) - freed && stats.timeouts == old(stats.timeouts) + freed
    {
      LogSweep(origin, log, stats.View(), outstanding, freed);
      stats.IncTimeouts(freed);
      outstanding := SatSub(outstanding, freed);
      log := log + A.SweepEvents(0, freed);
    }

    /** In ramp mode the controller may have changed the target rate. */
    method Retarget(rate: nat)
      requires Valid()
      modifies `ticks, `qps, `step, `nextSend, `sends, `start
      ensures Valid()
      ensures ramp && rate != old(qps) ==> qps == rate && sends == [] && nextSend == clock(old(ticks))
      ensures !(ramp && rate != old(qps)) ==>
        qps == old(qps) && sends == old(sends) && start == old(start) && nextSend == old(nextSend)
    {
      if ramp && rate != qps {
        qps, step := rate, StepNs(rate);
        nextSend := Now();
        sends, start := [], nextSend;
      }
    }

    /** The receiving half of an iteration. */
    method Drain(batch: seq<seq<Byte>>)
      requires Valid()
      modifies `ticks, `outstanding, `lastSweep, `log, table.slots, stats
      ensures Valid() && Balance() == old(Balance())
      ensures stats.sent == old(stats.sent)
      ensures Quick(clock, timeoutNs) ==> Pipe() == Replies(old(Pipe()), batch)
      ensures SweptInTime() && (lastSweep == old(lastSweep) || SweptNow()) && AllAnswered(table.Entries(), batch)
    {
      BookedAreFree(table.Entries(), stats.View(), batch, clock(ticks), timeoutNs);
      Receive(batch);
      SweepIdly(batch);
    }

    /** The sweep, which finds nothing in a run that is over before the timeout. */
    method SweepIdly(ghost batch: seq<seq<Byte>>)
      requires Valid()
      modifies `ticks, `outstanding, `lastSweep, `log, table.slots, stats`timeouts
      ensures Valid() && Balance() == old(Balance())
      ensures Quick(clock, timeoutNs) ==> Pipe() == old(Pipe())
      ensures SweptInTime() && (lastSweep == old(lastSweep) || SweptNow())
      ensures AllAnswered(old(table.Entries()), batch) ==> AllAnswered(table.Entries(), batch)
    {
      ghost var was, at := table.Entries(), clock(ticks + 1);
      SweepTimeouts();
      SweptSlots(was, at, timeoutNs, batch);
      if at < timeoutNs { NothingSwept(was, at, timeoutNs); }
    }

    /** One iteration of the worker's loop. */
    method Iterate(r: Round)
      requires Valid()
      modifies this, table.slots, stats
      ensures Valid() && Balance() == old(Balance())
      ensures !ramp && old(qps) == 0 && Quick(clock, timeoutNs) ==>
        Pipe() == Replies(Fill(old(Pipe()), maxOutstanding, r.results, 0), r.batch)
      ensures SweptInTime() && (lastSweep == old(lastSweep) || SweptNow()) && AllAnswered(table.Entries(), r.batch)
      ensures overwritten >= old(overwritten) && stats.sent >= old(stats.sent)
      ensures maxOutstanding == 0 ==> stats.sent == old(stats.sent)
      ensures !ramp ==> qps == old(qps) && start == old(start)
      ensures !ramp && qps > 0 ==> |sends| - |old(sends)| == stats.sent - old(stats.sent)
    {
      Retarget(r.rate);
      var didSend := SendFill(r.results);
      Drain(r.batch);
    }

    /** Any number of iterations: every reachable state is what some such call leaves.
        An overwritten entry is never given back, but there are always fewer of them than
        the gate lets through. */
    method Run(rounds: seq<Round>)
      requires Valid()
      modifies this, table.slots, stats
      ensures Valid() && Balance() == old(Balance())
      ensures overwritten >= old(overwritten) && stats.sent >= old(stats.sent)
      ensures maxOutstanding == 0 ==> stats.sent == old(stats.sent)
      ensures !ramp ==> qps == old(qps) && start == old(start)
      ensures !ramp && qps > 0 ==> |sends| - |old(sends)| == stats.sent - old(stats.sent)
    {
      var i := 0;
      while i < |rounds|
        invariant i <= |rounds| && Valid() && Balance() == old(Balance())
        invariant overwritten >= old(overwritten) && stats.sent >= old(stats.sent)
        invariant maxOutstanding == 0 ==> stats.sent == old(stats.sent)
        invariant !ramp ==> qps == old(qps) && start == old(start)
        invariant !ramp && qps > 0 ==> |sends| - |old(sends)| == stats.sent - old(stats.sent)
      {
        Iterate(rounds[i]);
        i := i + 1;
      }
    }
  }

  /** What the world does during one iteration: the rate the ramp asks for, the
      socket's answers to the sends, and the datagrams received. */
  datatype Round = Round(rate: nat, results: nat -> SendResult, batch: seq<seq<Byte>>)

  /** A pass of the send loop that nothing refuses, at a fixed rate: if no send was followed by
      a stall and the gate is not full, all the sends the rate asks for by the time of the
      last clock reading have been made. */
  method KeepPace(w: Worker)
    requires w.Valid() && w.qps > 0 && StepNs(w.qps) > 0
    modifies w, w.table.slots, w.stats
    ensures w.Valid() && w.qps == old(w.qps) && w.start == old(w.start)
    ensures w.outstanding == w.maxOutstanding || !NoStall(w.sends, w.step) || w.ticks == 0 ||
      w.clock(w.ticks - 1) < w.start || |w.sends| >= (w.clock(w.ticks - 1) - w.start) / StepNs(w.qps) + 1
  {
    var _ := w.SendFill(Always);
    if w.outstanding < w.maxOutstanding && NoStall(w.sends, w.step) && w.clock(w.ticks - 1) >= w.start {
      RateReached(w.sends, w.step, w.start, w.nextSend, w.clock(w.ticks - 1));
    }
  }

  /** A worker on a collector of its own. */
  method StartWorker(maxOutstanding: nat, timeoutNs: nat, ramp: bool, qps: nat, firstId: nat, clock: nat -> nat)
    returns (w: Worker)
    requires Monotone(clock) && firstId < SLOTS
    ensures fresh(w) && fresh(w.stats) && fresh(w.table.slots) && w.Valid()
    ensures w.maxOutstanding == maxOutstanding && w.timeoutNs == timeoutNs && w.clock == clock && w.ramp == ramp
    ensures w.Balance() == 0 && w.stats.sent == 0 && w.sends == [] && w.qps == qps && w.start == clock(0)
    ensures w.origin == A.Start(1)
  {
    var stats := new StatsCollector();
    w := new Worker(maxOutstanding, timeoutNs, ramp, qps, firstId, clock, stats);
    FreshSeen(stats.View());
  }

  /** A whole closed-loop run on its own collector. */
  method RunClosedLoop(maxOutstanding: nat, timeoutNs: nat, ramp: bool, qps: nat, firstId: nat, clock: nat -> nat,
                       rounds: seq<Round>)
    returns (w: Worker)
    requires Monotone(clock) && firstId < SLOTS
    ensures w.Valid() && w.maxOutstanding == maxOutstanding && w.timeoutNs == timeoutNs
    ensures w.stats.sent == w.stats.completed + w.stats.timeouts + w.outstanding
    ensures Occupied(w.table.Entries()) <= w.outstanding <= maxOutstanding
    ensures w.outstanding == Occupied(w.table.Entries()) <==> w.overwritten == 0
    ensures w.overwritten < Max(maxOutstanding, 1)
    ensures A.Recorded(A.Start(1), w.log, Seen(w.stats.View(), w.outstanding))
    ensures TimelySamples(w.stats.samples, timeoutNs) && Consistent(w.stats.View())
    ensures !ramp && qps > 0 ==> w.stats.sent == |w.sends| && Paced(w.sends, StepNs(qps), clock(0), w.nextSend)
    ensures !ramp && qps > 0 && StepNs(qps) > 0 && w.sends != [] ==>
      w.stats.sent <= SatSub(w.sends[|w.sends| - 1].at, clock(0)) / StepNs(qps) + 1
  {
    w := StartWorker(maxOutstanding, timeoutNs, ramp, qps, firstId, clock);
    w.Run(rounds);
    if !ramp && qps > 0 && StepNs(qps) > 0 && w.sends != [] {
      RunBound(w.sends, StepNs(qps), clock(0), w.nextSend, SatSub(w.sends[|w.sends| - 1].at, clock(0)));
    }
  }

  // ---- An id comes round while its query is unanswered ----------------------------------

  /** The socket accepts every query. */
  function Always(k: nat): SendResult {
    Accepted
  }

  /** How many ids after `id` is `i`. */
  ghost function Ahead(id: nat, i: nat): nat
    requires id < SLOTS && i < SLOTS
  {
    if i >= id then i - id else i + SLOTS - id
  }

  /** `j` queries have been sent from `id` on and none answered. */
  ghost predicate Filled(p: PipeState, id: nat, j: nat) {
    && |p.marks| == SLOTS && p.nextId < SLOTS && id < SLOTS && Ahead(id, p.nextId) == j % SLOTS
    && p.outstanding == j && p.overwritten == SatSub(j, SLOTS)
    && forall i :: 0 <= i < SLOTS ==> p.marks[i] == if Ahead(id, i) < j then 1 else 0
  }

  lemma FilledNext(p: PipeState, id: nat, j: nat)
    requires Filled(p, id, j)
    ensures Filled(Pass(p, true), id, j + 1)
  {
    var q := Pass(p, true);
    assert q.nextId == if p.nextId + 1 == SLOTS then 0 else p.nextId + 1;
    assert (j + 1) % SLOTS == if j % SLOTS + 1 == SLOTS then 0 else j % SLOTS + 1;
    assert j < SLOTS ==> j % SLOTS == j;
  }

  lemma {:induction false} FillsUp(p: PipeState, maxOutstanding: nat, id: nat, j: nat, k: nat)
    requires Filled(p, id, j) && j <= maxOutstanding
    ensures Filled(Fill(p, maxOutstanding, Always, k), id, maxOutstanding)
    decreases maxOutstanding - j
  {
    if j < maxOutstanding {
      FilledNext(p, id, j);
      FillNext(p, Pass(p, true), maxOutstanding, Always, k, true);
      FillsUp(Pass(p, true), maxOutstanding, id, j + 1, k + 1);
    }
  }

  /** The gate is full but for one, the query under `id` is unanswered, none was overwritten,
      and the next id is the `k`-th after it, with all from there on free. */
  ghost predicate Waiting(p: PipeState, maxOutstanding: nat, id: nat, k: nat) {
    && |p.marks| == SLOTS && p.nextId < SLOTS && id < SLOTS && p.marks[id] == 1
    && (if k < SLOTS then Ahead(id, p.nextId) == k else p.nextId == id)
    && p.outstanding + 1 == maxOutstanding && p.overwritten == 0
    && forall i :: 0 <= i < SLOTS && Ahead(id, i) >= k ==> p.marks[i] == 0
  }

  /** A reply of four bytes to the query under `id`. */
  function ReplyTo(id: U16): seq<Byte> {
    [Hi(id), Lo(id), 0, 0]
  }

  lemma ReplyFrees(p: PipeState, id: U16)
    requires |p.marks| == SLOTS
    ensures Replies(p, [ReplyTo(id)]) == p.(outstanding := SatSub(p.outstanding, p.marks[id]), marks := p.marks[id := 0])
  {
    WordHiLo(id);
    assert [ReplyTo(id)][..0] == [];
  }

  /** The last of a full gate is answered. */
  lemma LastAnswered(p: PipeState, maxOutstanding: nat, id: nat, last: U16)
    requires Filled(p, id, maxOutstanding) && 2 <= maxOutstanding <= SLOTS && Ahead(id, last) == maxOutstanding - 1
    ensures Waiting(Replies(p, [ReplyTo(last)]), maxOutstanding, id, maxOutstanding)
  {
    ReplyFrees(p, last);
    ModSmall(maxOutstanding);
    FreedLast(p, p.(outstanding := maxOutstanding - 1, marks := p.marks[last := 0]), maxOutstanding, id, last);
  }

  lemma ModSmall(j: nat)
    requires j <= SLOTS
    ensures j % SLOTS == if j == SLOTS then 0 else j
  {
  }

  lemma FreedLast(p: PipeState, q: PipeState, m: nat, id: nat, last: nat)
    requires |p.marks| == SLOTS && p.nextId < SLOTS && id < SLOTS && last < SLOTS && 2 <= m <= SLOTS
    requires Ahead(id, p.nextId) == (if m == SLOTS then 0 else m) && Ahead(id, last) == m - 1
    requires p.overwritten == 0 && forall i :: 0 <= i < SLOTS ==> p.marks[i] == if Ahead(id, i) < m then 1 else 0
    requires q == p.(outstanding := m - 1, marks := p.marks[last := 0])
    ensures Waiting(q, m, id, m)
  {
  }

  /** One query is sent under the next id and answered. */
  lemma SpendsId(p: PipeState, maxOutstanding: nat, id: nat, k: nat)
    requires Waiting(p, maxOutstanding, id, k) && 1 <= k < SLOTS
    ensures Waiting(Replies(Fill(p, maxOutstanding, Always, 0), [ReplyTo(p.nextId)]), maxOutstanding, id, k + 1)
  {
    var q := Pass(p, true);
    FillNext(p, q, maxOutstanding, Always, 0, true);
    assert q.nextId == if p.nextId + 1 == SLOTS then 0 else p.nextId + 1;
    ReplyFrees(q, p.nextId);
  }

  /** With all other ids spent, the next query overwrites the one that is waiting. */
  lemma SendsAgain(p: PipeState, maxOutstanding: nat, id: nat)
    requires Waiting(p, maxOutstanding, id, SLOTS)
    ensures var q := Fill(p, maxOutstanding, Always, 0); q.outstanding == maxOutstanding && q.overwritten == 1
  {
    FillNext(p, Pass(p, true), maxOutstanding, Always, 0, true);
  }

  /** Iterations in which one query is sent and answered, until all other ids have been spent. */
  method SpendIds(w: Worker, id: nat)
    requires w.Valid() && w.qps == 0 && !w.ramp && Quick(w.clock, w.timeoutNs) && 2 <= w.maxOutstanding <= SLOTS
    requires Waiting(w.Pipe(), w.maxOutstanding, id, w.maxOutstanding)
    modifies w, w.table.slots, w.stats
    ensures w.Valid() && w.qps == 0 && Waiting(w.Pipe(), w.maxOutstanding, id, SLOTS)
  {
    var k := w.maxOutstanding;
    while k < SLOTS
      invariant 2 <= k <= SLOTS && w.Valid() && w.qps == 0
      invariant Waiting(w.Pipe(), w.maxOutstanding, id, k)
    {
      SpendOne(w, id, k);
      k := k + 1;
    }
  }

  method SpendOne(w: Worker, id: nat, ghost k: nat)
    requires w.Valid() && w.qps == 0 && !w.ramp && Quick(w.clock, w.timeoutNs)
    requires 1 <= k < SLOTS && Waiting(w.Pipe(), w.maxOutstanding, id, k)
    modifies w, w.table.slots, w.stats
    ensures w.Valid() && w.qps == 0 && Waiting(w.Pipe(), w.maxOutstanding, id, k + 1)
  {
    ghost var p := w.Pipe();
    SpendsId(p, w.maxOutstanding, id, k);
    w.Iterate(Round(0, Always, [ReplyTo(w.nextId)]));
  }

  /** With room for two, the counter can exceed the queries in the table, although the socket
      refuses nothing and only one query goes unanswered longer than the others: the gate is
      filled, every later query is answered at once, and after 65536 the first id comes round.
      (A gate of more than 65536 is filled past that at once.) */
  method IdReused(maxOutstanding: nat, timeoutNs: nat, firstId: nat, clock: nat -> nat) returns (w: Worker)
    requires maxOutstanding >= 2 && firstId < SLOTS && Monotone(clock) && Quick(clock, timeoutNs)
    ensures w.Valid() && w.maxOutstanding == maxOutstanding && w.timeoutNs == timeoutNs && w.clock == clock
    ensures w.outstanding == maxOutstanding && w.overwritten == Max(SatSub(maxOutstanding, SLOTS), 1)
    ensures Occupied(w.table.Entries()) == maxOutstanding - w.overwritten
  {
    var stats := new StatsCollector();
    w := new Worker(maxOutstanding, timeoutNs, false, 0, firstId, clock, stats);
    StartsEmpty(w.Pipe(), w.table.Entries(), firstId);
    FillsUp(w.Pipe(), maxOutstanding, firstId, 0, 0);
    if maxOutstanding > SLOTS {
      w.Iterate(Round(0, Always, []));
    } else {
      var last := firstId + maxOutstanding - 1;
      if last >= SLOTS { last := last - SLOTS; }
      LastAnswered(Fill(w.Pipe(), maxOutstanding, Always, 0), maxOutstanding, firstId, last);
      w.Iterate(Round(0, Always, [ReplyTo(last)]));
      SpendIds(w, firstId);
      SendsAgain(w.Pipe(), maxOutstanding, firstId);
      w.Iterate(Round(0, Always, []));
    }
  }

  lemma StartsEmpty(p: PipeState, slots: seq<nat>, id: nat)
    requires |slots| == SLOTS && Occupied(slots) == 0 && id < SLOTS && p == PipeState(0, 0, Marks(slots), id)
    ensures Filled(p, id, 0)
  {
    forall i | 0 <= i < SLOTS ensures p.marks[i] == 0 {
      if slots[i] != 0 { OccupiedPositive(slots, i); }
    }
  }

  /** The counters after a matched reply with round-trip time `rttNs`. */
  ghost function Matched(c: Counters, rcode: nat, rttNs: nat, timeoutNs: nat): Counters {
    if rttNs <= timeoutNs then Sampled(Replied(c, rcode), Max(rttNs / 1000, 1)) else Replied(c, rcode)
  }

  /** One completion, in the one counter of its rcode, and one sample of the round trip in
      microseconds, at least 1, unless the reply is late. */
  lemma MatchedCounts(c: Counters, rcode: nat, rttNs: nat, timeoutNs: nat)
    ensures var d := Matched(c, rcode, rttNs, timeoutNs);
      && d.traffic.sent == c.traffic.sent && d.traffic.timeouts == c.traffic.timeouts
      && d.traffic.errors == c.traffic.errors && d.traffic.completed == c.traffic.completed + 1
      && d.rcodes.ok.no == c.rcodes.ok.no + (if rcode == 0 then 1 else 0)
      && d.rcodes.bad.sf == c.rcodes.bad.sf + (if rcode == 2 then 1 else 0)
      && d.rcodes.ok.nx == c.rcodes.ok.nx + (if rcode == 3 then 1 else 0)
      && d.rcodes.bad.rf == c.rcodes.bad.rf + (if rcode == 5 then 1 else 0)
      && d.rcodes.bad.ot == c.rcodes.bad.ot + (if rcode in {0, 2, 3, 5} then 0 else 1)
      && d.samples == c.samples + if rttNs <= timeoutNs then multiset{Max(rttNs / 1000, 1)} else multiset{}
  {
  }

  // ---- The worker as part of a fleet -------------------------------------------------------

  ghost function Tally(c: Counters): seq<nat> {
    var t, r := c.traffic, c.rcodes;
    [t.sent, t.completed, t.timeouts, t.errors, r.ok.no, r.ok.nx, r.bad.sf, r.bad.rf, r.bad.ot]
  }

  /** The counters and a lone worker between two accesses, as `Accounting` sees them. */
  ghost function Seen(c: Counters, outstanding: nat): A.Fleet {
    A.Fleet(Tally(c), A.Zeros(), c.samples, 0, [A.Member(outstanding, A.Idle)])
  }

  lemma FreshSeen(c: Counters)
    requires Unused(c)
    ensures Seen(c, 0) == A.Start(1)
  {
    assert Tally(c) == A.Zeros();
  }

  ghost function SendEvents(): seq<A.Event> {
    [A.Book(0)] + [A.CountSent(0)]
  }

  /** The sample taken of a reply, if it is not late. */
  ghost function SampleOf(rttNs: nat, timeoutNs: nat): Option<nat> {
    if rttNs <= timeoutNs then Some(Max(rttNs / 1000, 1)) else None
  }

  lemma LogSend(origin: A.Fleet, log: seq<A.Event>, c: Counters, out: nat)
    requires A.Recorded(origin, log, Seen(c, out))
    ensures A.Recorded(origin, log + SendEvents(), Seen(c.(traffic := c.traffic.(sent := c.traffic.sent + 1)), out + 1))
  {
    var s := Seen(c, out);
    A.SendRun(s, 0);
    assert A.SentBy(s, 0) == Seen(c.(traffic := c.traffic.(sent := c.traffic.sent + 1)), out + 1);
    A.RecordedMore(origin, log, s, SendEvents(), A.SentBy(s, 0));
  }

  lemma LogError(origin: A.Fleet, log: seq<A.Event>, c: Counters, out: nat)
    requires A.Recorded(origin, log, Seen(c, out))
    ensures A.Recorded(origin, log + [A.CountError(0)], Seen(c.(traffic := c.traffic.(errors := c.traffic.errors + 1)), out))
  {
    var s := Seen(c, out);
    A.OneStep(s, A.CountError(0));
    assert A.Apply(s, A.CountError(0)) == Seen(c.(traffic := c.traffic.(errors := c.traffic.errors + 1)), out);
    A.RecordedMore(origin, log, s, [A.CountError(0)], A.Apply(s, A.CountError(0)));
  }

  lemma RepliedTally(c: Counters, rcode: nat)
    ensures var r, b := Tally(c), A.Bin(rcode);
      Tally(Replied(c, rcode)) == r[A.COMPLETED := c.traffic.completed + 1][b := r[b] + 1]
  {
  }

  lemma SeenAnswered(c: Counters, out: nat, rcode: nat, rttNs: nat, timeoutNs: nat)
    requires out >= 1
    ensures A.AnsweredBy(Seen(c, out), 0, rcode, SampleOf(rttNs, timeoutNs)) ==
      Seen(Matched(c, rcode, rttNs, timeoutNs), out - 1)
  {
    RepliedTally(c, rcode);
  }

  lemma LogReply(origin: A.Fleet, log: seq<A.Event>, c: Counters, out: nat, rcode: nat, rttNs: nat, timeoutNs: nat)
    requires A.Recorded(origin, log, Seen(c, out)) && out >= 1
    ensures A.Recorded(origin, log + A.ReplyEvents(0, rcode, SampleOf(rttNs, timeoutNs)),
                       Seen(Matched(c, rcode, rttNs, timeoutNs), out - 1))
  {
    var s, sample := Seen(c, out), SampleOf(rttNs, timeoutNs);
    A.ReplyRun(s, 0, rcode, sample);
    SeenAnswered(c, out, rcode, rttNs, timeoutNs);
    A.RecordedMore(origin, log, s, A.ReplyEvents(0, rcode, sample), A.AnsweredBy(s, 0, rcode, sample));
  }

  lemma LogSweep(origin: A.Fleet, log: seq<A.Event>, c: Counters, out: nat, n: nat)
    requires A.Recorded(origin, log, Seen(c, out)) && out >= n
    ensures A.Recorded(origin, log + A.SweepEvents(0, n),
                       Seen(c.(traffic := c.traffic.(timeouts := c.traffic.timeouts + n)), out - n))
  {
    var s := Seen(c, out);
    A.SweepRun(s, 0, n);
    assert A.SweptBy(s, 0, n) == Seen(c.(traffic := c.traffic.(timeouts := c.traffic.timeouts + n)), out - n);
    A.RecordedMore(origin, log, s, A.SweepEvents(0, n), A.SweptBy(s, 0, n));
  }
}
