/** The shared lock-free in-flight table and the outstanding gate of the closed-loop
    XDP run (src/transport/xdp/receiver.rs). N workers insert, take, sweep and adjust
    one saturating counter; each atomic access is one step and any interleaving of
    the workers' steps is a run. */
module InFlight {
  import opened Machine
  import opened IdRanges
  import opened SlotTable

  /** max_outstanding. (At 0 there is no gate and the counter is never touched.) */
  type Cap = x: nat | x > 0 witness 1

  /** `inclusive` picks the sweep's comparison: an entry expires at age > timeout in the
      XDP table and at age >= timeout in the UDP one. */
  datatype Config = Config(cap: Cap, timeout: nat, inclusive: bool)

  /** Where a worker is in its loop, with the locals live there. */
  datatype Phase =
    | AtGate
    | Reserved(headroom: nat)
    | Inserting(first: nat, enq: nat, done: nat)
    | Receiving(completed: nat)
    | Sweeping(now: nat, next: nat, seen: Option<nat>, expired: nat)
    | Draining(next: nat)
    | Stopped

  datatype Worker = Worker(phase: Phase, idCtr: nat)

  /** The shared memory and the workers, with a tally of what became of the entries.
      `clipped` is how much the saturating subtractions have swallowed. */
  datatype State = State(
    slots: seq<nat>, inFlight: nat, clock: nat, workers: seq<Worker>,
    inserts: nat, takes: nat, expiries: nat, drained: nat, overwritten: nat, clipped: nat)

  datatype Step =
    | Tick(to: nat)
    | LoadGate(w: nat, grant: nat)
    | Produce(w: nat, take: nat, enq: nat)
    | Insert(w: nat, stamp: nat)
    | AddBatch(w: nat)
    | Take(w: nat, id: nat)
    | Subtract(w: nat)
    | StartSweep
    | SweepLoad
    | SweepCas
    | EndSweep
    | Shutdown(w: nat)
    | DrainSlot
    | EndDrain

  function Init(n: nat): State {
    State(seq(SLOTS, _ => 0), 0, 0, seq(n, _ => Worker(AtGate, 0)), 0, 0, 0, 0, 0, 0)
  }

  predicate Wellformed(s: State) {
    |s.slots| == SLOTS
  }

  predicate In(s: State, w: nat) {
    w < |s.workers|
  }

  predicate Enabled(c: Config, s: State, st: Step)
    requires Wellformed(s)
  {
    match st
    case Tick(to) => s.clock <= to
    case LoadGate(w, grant) => In(s, w) && s.workers[w].phase.AtGate? && grant <= TX_BATCH
    case Produce(w, take, enq) =>
      In(s, w) && s.workers[w].phase.Reserved? && enq <= take <= s.workers[w].phase.headroom
    case Insert(w, stamp) =>
      In(s, w) && s.workers[w].phase.Inserting? && s.workers[w].phase.done < s.workers[w].phase.enq
      && stamp <= s.clock
    case AddBatch(w) =>
      In(s, w) && s.workers[w].phase.Inserting? && s.workers[w].phase.done == s.workers[w].phase.enq
    case Take(w, id) => In(s, w) && s.workers[w].phase.Receiving? && id < SLOTS
    case Subtract(w) => In(s, w) && s.workers[w].phase.Receiving?
    case StartSweep => In(s, 0) && s.workers[0].phase.AtGate?
    case SweepLoad =>
      In(s, 0) && s.workers[0].phase.Sweeping? && s.workers[0].phase.seen.None? && s.workers[0].phase.next < SLOTS
    case SweepCas =>
      In(s, 0) && s.workers[0].phase.Sweeping? && s.workers[0].phase.seen.Some? && s.workers[0].phase.next < SLOTS
    case EndSweep => In(s, 0) && s.workers[0].phase.Sweeping? && s.workers[0].phase.next == SLOTS
    case Shutdown(w) => In(s, w) && s.workers[w].phase.AtGate?
    case DrainSlot => In(s, 0) && s.workers[0].phase.Draining? && s.workers[0].phase.next < SLOTS
    case EndDrain => In(s, 0) && s.workers[0].phase.Draining? && s.workers[0].phase.next == SLOTS
  }

  /** Worker `w` moves on to `p`. */
  function At(s: State, w: nat, p: Phase): State
    requires In(s, w)
  {
    s.(workers := s.workers[w := s.workers[w].(phase := p)])
  }

  /** `fetch_update(|x| x.saturating_sub(n))`. */
  function Lowered(s: State, n: nat): State {
    s.(inFlight := SatSub(s.inFlight, n), clipped := s.clipped + SatSub(n, s.inFlight))
  }

  function Apply(c: Config, s: State, st: Step): State
    requires Wellformed(s) && Enabled(c, s, st)
  {
    match st
    case Tick(to) => s.(clock := to)
    case LoadGate(w, grant) =>
      var headroom := Min(grant, SatSub(c.cap, s.inFlight));
      At(s, w, if headroom > 0 then Reserved(headroom) else Receiving(0))
    case Produce(w, take, enq) =>
      var first := s.workers[w].idCtr;
      var p := if enq > 0 then Inserting(first, enq, 0) else Receiving(0);
      s.(workers := s.workers[w := Worker(p, first + take)])
    case Insert(w, stamp) =>
      var p := s.workers[w].phase;
      var id := IdAt(|s.workers|, w, p.first + p.done);
      At(s, w, p.(done := p.done + 1))
        .(slots := s.slots[id := Max(stamp, 1)],
          inserts := s.inserts + 1, overwritten := s.overwritten + Mark(s.slots[id]))
    case AddBatch(w) => At(s, w, Receiving(0)).(inFlight := s.inFlight + s.workers[w].phase.enq)
    case Take(w, id) =>
      var hit := Mark(s.slots[id]);
      At(s, w, Receiving(s.workers[w].phase.completed + hit))
        .(slots := s.slots[id := 0], takes := s.takes + hit)
    case Subtract(w) => At(Lowered(s, s.workers[w].phase.completed), w, AtGate)
    case StartSweep => At(s, 0, Sweeping(s.clock, 0, None, 0))
    case SweepLoad =>
      var p := s.workers[0].phase;
      At(s, 0, p.(seen := Some(s.slots[p.next])))
    case SweepCas =>
      var p := s.workers[0].phase;
      var v := p.seen.value;
      if Expired(p.now, v, c.timeout, c.inclusive) && s.slots[p.next] == v then
        At(s, 0, p.(seen := None, next := p.next + 1, expired := p.expired + 1))
          .(slots := s.slots[p.next := 0], expiries := s.expiries + 1)
      else
        At(s, 0, p.(seen := None, next := p.next + 1))
    case EndSweep => At(Lowered(s, s.workers[0].phase.expired), 0, AtGate)
    case Shutdown(w) => At(s, w, if w == 0 then Draining(0) else Stopped)
    case DrainSlot =>
      var i := s.workers[0].phase.next;
      At(s, 0, Draining(i + 1)).(slots := s.slots[i := 0], drained := s.drained + Mark(s.slots[i]))
    case EndDrain => At(s, 0, Stopped)
  }

  predicate Runnable(c: Config, s: State, steps: seq<Step>)
    decreases |steps|
  {
    Wellformed(s) &&
    (steps == [] || (Enabled(c, s, steps[0]) && Runnable(c, Apply(c, s, steps[0]), steps[1..])))
  }

  function Exec(c: Config, s: State, steps: seq<Step>): State
    requires Runnable(c, s, steps)
    decreases |steps|
  {
    if steps == [] then s else Exec(c, Apply(c, s, steps[0]), steps[1..])
  }

  // ---- Measures -------------------------------------------------------------

  /** Entries in the table that the worker has not yet added to the counter. */
  ghost function ToAdd(p: Phase): nat {
    if p.Inserting? then p.done else 0
  }

  /** Entries the worker removed and has not yet subtracted from the counter. */
  ghost function ToSubtract(p: Phase): nat {
    match p
    case Receiving(completed) => completed
    case Sweeping(_, _, _, expired) => expired
    case _ => 0
  }

  /** Headroom the worker has claimed and not yet added to the counter. */
  ghost function Claim(p: Phase): nat {
    match p
    case Reserved(headroom) => headroom
    case Inserting(_, enq, _) => enq
    case _ => 0
  }

  ghost function ToAdds(ws: seq<Worker>): seq<nat> {
    seq(|ws|, i requires 0 <= i < |ws| => ToAdd(ws[i].phase))
  }

  ghost function ToSubtracts(ws: seq<Worker>): seq<nat> {
    seq(|ws|, i requires 0 <= i < |ws| => ToSubtract(ws[i].phase))
  }

  ghost function Claims(ws: seq<Worker>): seq<nat> {
    seq(|ws|, i requires 0 <= i < |ws| => Claim(ws[i].phase))
  }

  /** What worker `w` becoming `x` does to the three sums. */
  lemma Moved(ws: seq<Worker>, w: nat, x: Worker)
    requires w < |ws|
    ensures var vs := ws[w := x]; var p := ws[w].phase;
      && Sum(ToAdds(vs)) == Sum(ToAdds(ws)) - ToAdd(p) + ToAdd(x.phase)
      && Sum(ToSubtracts(vs)) == Sum(ToSubtracts(ws)) - ToSubtract(p) + ToSubtract(x.phase)
      && Sum(Claims(vs)) == Sum(Claims(ws)) - Claim(p) + Claim(x.phase)
  {
    var vs := ws[w := x];
    assert ToAdds(vs) == ToAdds(ws)[w := ToAdd(x.phase)];
    assert ToSubtracts(vs) == ToSubtracts(ws)[w := ToSubtract(x.phase)];
    assert Claims(vs) == Claims(ws)[w := Claim(x.phase)];
    SumUpdate(ToAdds(ws), w, ToAdd(x.phase));
    SumUpdate(ToSubtracts(ws), w, ToSubtract(x.phase));
    SumUpdate(Claims(ws), w, Claim(x.phase));
  }

  /** The worker a step belongs to, if any. */
  function Actor(st: Step): Option<nat> {
    match st
    case Tick(_) => None
    case LoadGate(w, _) => Some(w)
    case Produce(w, _, _) => Some(w)
    case Insert(w, _) => Some(w)
    case AddBatch(w) => Some(w)
    case Take(w, _) => Some(w)
    case Subtract(w) => Some(w)
    case Shutdown(w) => Some(w)
    case _ => Some(0)
  }

  /** The slot a step writes, if any. */
  function Written(s: State, st: Step): Option<nat>
    requires Wellformed(s)
  {
    match st
    case Insert(w, _) =>
      if In(s, w) && s.workers[w].phase.Inserting?
      then Some(IdAt(|s.workers|, w, s.workers[w].phase.first + s.workers[w].phase.done)) else None
    case Take(_, id) => if id < SLOTS then Some(id) else None
    case SweepCas =>
      if In(s, 0) && s.workers[0].phase.Sweeping? && s.workers[0].phase.next < SLOTS
      then Some(s.workers[0].phase.next) else None
    case DrainSlot =>
      if In(s, 0) && s.workers[0].phase.Draining? && s.workers[0].phase.next < SLOTS
      then Some(s.workers[0].phase.next) else None
    case _ => None
  }

  /** A step touches its own worker, its own slot and nothing else of either. */
  lemma Locality(c: Config, s: State, st: Step)
    requires Wellformed(s) && Enabled(c, s, st)
    ensures var t := Apply(c, s, st);
      && Wellformed(t) && |t.workers| == |s.workers|
      && (match Actor(st)
          case None => t.workers == s.workers
          case Some(w) => In(s, w) && t.workers == s.workers[w := t.workers[w]])
      && (match Written(s, st)
          case None => t.slots == s.slots
          case Some(i) => t.slots == s.slots[i := t.slots[i]])
  {
  }

  /** How a step changes the sums, in terms of its own worker and slot only. */
  lemma SumsMoved(c: Config, s: State, st: Step)
    requires Wellformed(s) && Enabled(c, s, st)
    ensures var t := Apply(c, s, st);
      && Wellformed(t) && |t.workers| == |s.workers|
      && (match Actor(st)
          case None =>
            Sum(ToAdds(t.workers)) == Sum(ToAdds(s.workers))
            && Sum(ToSubtracts(t.workers)) == Sum(ToSubtracts(s.workers))
            && Sum(Claims(t.workers)) == Sum(Claims(s.workers))
          case Some(w) =>
            var p, q := s.workers[w].phase, t.workers[w].phase;
            Sum(ToAdds(t.workers)) == Sum(ToAdds(s.workers)) - ToAdd(p) + ToAdd(q)
            && Sum(ToSubtracts(t.workers)) == Sum(ToSubtracts(s.workers)) - ToSubtract(p) + ToSubtract(q)
            && Sum(Claims(t.workers)) == Sum(Claims(s.workers)) - Claim(p) + Claim(q))
      && (match Written(s, st)
          case None => Occupied(t.slots) == Occupied(s.slots)
          case Some(i) => Occupied(t.slots) == Occupied(s.slots) - Mark(s.slots[i]) + Mark(t.slots[i]))
  {
    Locality(c, s, st);
    var t := Apply(c, s, st);
    if Actor(st).Some? {
      var w := Actor(st).value;
      Moved(s.workers, w, t.workers[w]);
    }
    if Written(s, st).Some? {
      var i := Written(s, st).value;
      OccupiedUpdate(s.slots, i, t.slots[i]);
    }
  }

  // ---- What every interleaving keeps ----------------------------------------------

  /** Every entry ever inserted was taken, expired, drained, overwritten, or is
      still in the table. */
  ghost predicate Ledger(s: State) {
    s.inserts == s.takes + s.expiries + s.drained + s.overwritten + Occupied(s.slots)
  }

  /** How far the counter is above the truth for good. */
  ghost function Leak(s: State): nat {
    s.drained + s.overwritten + s.clipped
  }

  /** The counter, corrected for entries not yet added and removals not yet
      subtracted, exceeds the occupied slots by exactly the leak. */
  ghost predicate Gate(s: State) {
    s.inFlight + Sum(ToAdds(s.workers)) == Occupied(s.slots) + Sum(ToSubtracts(s.workers)) + Leak(s)
  }

  lemma LedgerKept(c: Config, s: State, st: Step)
    requires Wellformed(s) && Enabled(c, s, st) && Ledger(s)
    ensures Ledger(Apply(c, s, st))
  {
    SumsMoved(c, s, st);
  }

  function Removes(st: Step): bool {
    st.Take? || st.SweepCas? || st.DrainSlot?
  }

  function Lowers(st: Step): bool {
    st.Subtract? || st.EndSweep?
  }

  lemma GateKeptByRemoval(c: Config, s: State, st: Step)
    requires Wellformed(s) && Enabled(c, s, st) && Gate(s)
    requires Removes(st)
    ensures Gate(Apply(c, s, st))
  {
    SumsMoved(c, s, st);
  }

  lemma GateKeptByLowering(c: Config, s: State, st: Step)
    requires Wellformed(s) && Enabled(c, s, st) && Gate(s)
    requires Lowers(st)
    ensures Gate(Apply(c, s, st))
  {
    SumsMoved(c, s, st);
  }

  lemma GateKeptByOthers(c: Config, s: State, st: Step)
    requires Wellformed(s) && Enabled(c, s, st) && Gate(s)
    requires !Removes(st) && !Lowers(st)
    ensures Gate(Apply(c, s, st))
  {
    SumsMoved(c, s, st);
  }

  lemma GateKept(c: Config, s: State, st: Step)
    requires Wellformed(s) && Enabled(c, s, st) && Gate(s)
    ensures Gate(Apply(c, s, st))
  {
    if Removes(st) {
      GateKeptByRemoval(c, s, st);
    } else if Lowers(st) {
      GateKeptByLowering(c, s, st);
    } else {
      GateKeptByOthers(c, s, st);
    }
  }

  /** The most a worker can claim at the gate. */
  function Batch(c: Config): nat {
    Min(c.cap, TX_BATCH)
  }

  /** The locals of each phase are within the bounds the code gives them, and no
      time on record lies in the future. */
  predicate SanePhase(c: Config, p: Phase, clock: nat) {
    match p
    case Reserved(headroom) => headroom <= Batch(c)
    case Inserting(_, enq, done) => done <= enq <= Batch(c)
    case Sweeping(now, next, _, _) => now <= clock && next <= SLOTS
    case _ => true
  }

  predicate Sane(c: Config, s: State) {
    && (forall i :: 0 <= i < |s.workers| ==> SanePhase(c, s.workers[i].phase, s.clock))
    && (forall i :: 0 <= i < |s.slots| ==> s.slots[i] <= Max(s.clock, 1))
  }

  lemma SaneKept(c: Config, s: State, st: Step)
    requires Wellformed(s) && Enabled(c, s, st) && Sane(c, s)
    ensures Sane(c, Apply(c, s, st))
  {
  }

  /** The counter plus all claimed headroom overshoots the cap by at most one batch
      for each other worker, although check and add are not one atomic action. */
  ghost predicate Capped(c: Config, s: State) {
    s.inFlight + Sum(Claims(s.workers)) <= c.cap + Batch(c) * (|s.workers| - 1)
  }

  lemma OthersBounded(xs: seq<nat>, w: nat, b: nat)
    requires w < |xs| && xs[w] == 0 && forall i :: 0 <= i < |xs| ==> xs[i] <= b
    ensures Sum(xs) <= b * (|xs| - 1)
  {
    SumUpdate(xs, w, b);
    SumBounded(xs[w := b], b);
    OneFewer(|xs|, b);
  }

  lemma OneFewer(k: nat, b: nat)
    ensures k * b == b * (k - 1) + b
  {
  }

  /** With nothing claimed by `w`, the others' claims are at most a batch each. */
  lemma OthersClaims(c: Config, ws: seq<Worker>, w: nat, clock: nat)
    requires w < |ws| && Claim(ws[w].phase) == 0
    requires forall i :: 0 <= i < |ws| ==> SanePhase(c, ws[i].phase, clock)
    ensures Sum(Claims(ws)) <= Batch(c) * (|ws| - 1)
  {
    OthersBounded(Claims(ws), w, Batch(c));
  }

  lemma CappedKept(c: Config, s: State, st: Step)
    requires Wellformed(s) && Enabled(c, s, st) && Sane(c, s) && Capped(c, s)
    ensures Capped(c, Apply(c, s, st))
  {
    SumsMoved(c, s, st);
    var t := Apply(c, s, st);
    if st.LoadGate? {
      OthersClaims(c, s.workers, st.w, s.clock);
    } else if Actor(st).Some? {
      var w := Actor(st).value;
      assert t.inFlight + Claim(t.workers[w].phase) <= s.inFlight + Claim(s.workers[w].phase);
    }
  }

  ghost predicate Inv(c: Config, s: State) {
    Wellformed(s) && Sane(c, s) && Ledger(s) && Gate(s) && Capped(c, s)
  }

  lemma InitInv(c: Config, n: nat)
    requires n >= 1
    ensures Inv(c, Init(n))
  {
    var s := Init(n);
    ZeroSum(Marks(s.slots));
    ZeroSum(ToAdds(s.workers));
    ZeroSum(ToSubtracts(s.workers));
    ZeroSum(Claims(s.workers));
  }

  lemma StepKeeps(c: Config, s: State, st: Step)
    requires Inv(c, s) && Enabled(c, s, st)
    ensures Inv(c, Apply(c, s, st)) && |Apply(c, s, st).workers| == |s.workers|
  {
    SaneKept(c, s, st);
    LedgerKept(c, s, st);
    GateKept(c, s, st);
    CappedKept(c, s, st);
    Locality(c, s, st);
  }

  lemma {:induction false} RunKeeps(c: Config, s: State, steps: seq<Step>)
    requires Inv(c, s) && Runnable(c, s, steps)
    ensures Inv(c, Exec(c, s, steps)) && |Exec(c, s, steps).workers| == |s.workers|
    decreases |steps|
  {
    if steps != [] {
      StepKeeps(c, s, steps[0]);
      RunKeeps(c, Apply(c, s, steps[0]), steps[1..]);
    }
  }

  /** Conservation, in every interleaving: no entry is counted twice or vanishes. */
  lemma EveryEntryAccounted(c: Config, n: nat, steps: seq<Step>)
    requires n >= 1 && Runnable(c, Init(n), steps)
    ensures var s := Exec(c, Init(n), steps);
      s.inserts == s.takes + s.expiries + s.drained + s.overwritten + Occupied(s.slots)
  {
    InitInv(c, n);
    RunKeeps(c, Init(n), steps);
  }

  /** The safety of the gate, in every interleaving: the counter never under-counts,
      and at most cap + min(cap, 64) * (n - 1) queries are ever outstanding. */
  lemma OutstandingBounded(c: Config, n: nat, steps: seq<Step>)
    requires n >= 1 && Runnable(c, Init(n), steps)
    ensures var s := Exec(c, Init(n), steps);
      && s.inFlight + Sum(ToAdds(s.workers)) >= Occupied(s.slots) + Sum(ToSubtracts(s.workers))
      && s.inFlight + Sum(Claims(s.workers)) <= c.cap + Batch(c) * (n - 1)
      && Occupied(s.slots) <= c.cap + Batch(c) * (n - 1)
  {
    InitInv(c, n);
    RunKeeps(c, Init(n), steps);
    var s := Exec(c, Init(n), steps);
    forall i | 0 <= i < |s.workers| ensures ToAdds(s.workers)[i] <= Claims(s.workers)[i] {
      assert SanePhase(c, s.workers[i].phase, s.clock);
    }
    SumMono(ToAdds(s.workers), Claims(s.workers));
  }

  /** No worker has anything pending. */
  ghost predicate Quiet(s: State) {
    forall i :: 0 <= i < |s.workers| ==>
      ToAdd(s.workers[i].phase) == 0 && ToSubtract(s.workers[i].phase) == 0
  }

  /** Between batches the counter is the number of outstanding queries exactly when
      nothing was ever clipped, overwritten or drained. */
  lemma AccurateIffNoLeak(c: Config, n: nat, steps: seq<Step>)
    requires n >= 1 && Runnable(c, Init(n), steps) && Quiet(Exec(c, Init(n), steps))
    ensures var s := Exec(c, Init(n), steps);
      s.inFlight == Occupied(s.slots) <==> s.clipped == 0 && s.overwritten == 0 && s.drained == 0
  {
    InitInv(c, n);
    RunKeeps(c, Init(n), steps);
    var s := Exec(c, Init(n), steps);
    ZeroSum(ToAdds(s.workers));
    ZeroSum(ToSubtracts(s.workers));
  }

  /** Whatever happened to the slot between load and compare-exchange, an expiry
      only ever removes an entry that is older than the timeout. */
  lemma ExpiryOnlyRemovesOld(c: Config, n: nat, steps: seq<Step>)
    requires n >= 1 && Runnable(c, Init(n), steps)
    requires var s := Exec(c, Init(n), steps); Wellformed(s) && Enabled(c, s, SweepCas)
    ensures var s := Exec(c, Init(n), steps);
      var t := Apply(c, s, SweepCas);
      var v := s.slots[s.workers[0].phase.next];
      t.expiries > s.expiries ==>
        v != 0 && (if c.inclusive then SatSub(s.clock, v) >= c.timeout else SatSub(s.clock, v) > c.timeout)
  {
    InitInv(c, n);
    RunKeeps(c, Init(n), steps);
    var s := Exec(c, Init(n), steps);
    assert SanePhase(c, s.workers[0].phase, s.clock);
    assert s.slots[s.workers[0].phase.next] <= Max(s.clock, 1);
  }

  /** An insert overwrites at most an entry its own worker put there: no step of
      another worker ever inserts at that slot. */
  lemma OverwritesOwnOnly(c: Config, s: State, w1: nat, t1: nat, s2: State, w2: nat, t2: nat)
    requires Wellformed(s) && Enabled(c, s, Insert(w1, t1))
    requires Wellformed(s2) && Enabled(c, s2, Insert(w2, t2))
    requires |s.workers| == |s2.workers| <= ID_SPACE
    ensures Written(s, Insert(w1, t1)) == Written(s2, Insert(w2, t2)) ==> w1 == w2
  {
    var p, q := s.workers[w1].phase, s2.workers[w2].phase;
    if w1 < w2 {
      RangesDisjoint(|s.workers|, w1, w2, p.first + p.done, q.first + q.done);
    } else if w2 < w1 {
      RangesDisjoint(|s.workers|, w2, w1, q.first + q.done, p.first + p.done);
    }
  }

  // ---- A counter that stays too high ---------------------------------------------

  /** No worker is between its gate check and its add. */
  predicate NoBatch(s: State) {
    forall i :: 0 <= i < |s.workers| ==> !s.workers[i].phase.Reserved? && !s.workers[i].phase.Inserting?
  }

  /** The counter is at the cap without any query to account for it. */
  ghost predicate Jammed(c: Config, s: State) {
    NoBatch(s) && Leak(s) >= c.cap
  }

  lemma JammedStep(c: Config, s: State, st: Step)
    requires Wellformed(s) && Gate(s) && Jammed(c, s) && Enabled(c, s, st)
    ensures var t := Apply(c, s, st);
      Wellformed(t) && Gate(t) && Jammed(c, t) && t.inserts == s.inserts
  {
    GateKept(c, s, st);
    Locality(c, s, st);
    ZeroSum(ToAdds(s.workers));
    var t := Apply(c, s, st);
    if Actor(st).Some? {
      var w := Actor(st).value;
      assert !s.workers[w].phase.Reserved? && !s.workers[w].phase.Inserting?;
    }
  }

  /** Once the leak has reached the cap and no batch is under way, the gate never
      opens again: no continuation whatsoever inserts another query. */
  lemma {:induction false} LeakJamsTheGate(c: Config, s: State, steps: seq<Step>)
    requires Wellformed(s) && Gate(s) && Jammed(c, s) && Runnable(c, s, steps)
    ensures Exec(c, s, steps).inserts == s.inserts
    decreases |steps|
  {
    if steps != [] {
      JammedStep(c, s, steps[0]);
      LeakJamsTheGate(c, Apply(c, s, steps[0]), steps[1..]);
    }
  }
}
