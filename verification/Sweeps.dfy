/** The steps of the shared in-flight table in plain numbers, and what a whole timeout sweep
    does while the other workers insert and take (src/transport/xdp/receiver.rs). */
module Sweeps {
  import opened Machine
  import opened IdRanges
  import opened SlotTable
  import opened InFlight
  import opened GateRuns

  // ---- One step ---------------------------------------------------------------------------

  /** The gate admits the most that neither the grant nor the cap forbids. */
  lemma GateAdmits(c: Config, s: State, w: nat, grant: nat)
    requires Wellformed(s) && Enabled(c, s, LoadGate(w, grant))
    ensures var p := Apply(c, s, LoadGate(w, grant)).workers[w].phase;
      if grant == 0 || s.inFlight >= c.cap then p == Receiving(0)
      else
        && p.Reserved? && 0 < p.headroom <= grant && s.inFlight + p.headroom <= c.cap
        && (p.headroom == grant || s.inFlight + p.headroom == c.cap)
  {
  }

  /** A batch gets the ids that follow the last one spent, whether they are then sent or not,
      and is added to the counter once. */
  lemma BatchProduced(c: Config, s: State, w: nat, st: Step)
    requires Wellformed(s) && Enabled(c, s, st) && Actor(st) == Some(w)
    ensures var t := Apply(c, s, st);
      && (st.Produce? ==>
            && t.workers[w].idCtr == s.workers[w].idCtr + st.take
            && t.workers[w].phase == if st.enq > 0 then Inserting(s.workers[w].idCtr, st.enq, 0) else Receiving(0))
      && (st.AddBatch? ==> t.inFlight == s.inFlight + s.workers[w].phase.enq && t.workers[w].phase == Receiving(0))
  {
  }

  /** Each of its queries is registered with its send time under its own id of the worker's
      range, over an older entry if there is one. */
  lemma QueryRegistered(c: Config, s: State, w: nat, stamp: nat, k: nat, id: nat)
    requires Wellformed(s) && Enabled(c, s, Insert(w, stamp)) && |s.workers| <= ID_SPACE
    requires k == s.workers[w].phase.first + s.workers[w].phase.done
    requires id == w * Span(|s.workers|) + k % Span(|s.workers|)
    ensures var t, p := Apply(c, s, Insert(w, stamp)), s.workers[w].phase;
      && id < |s.slots| && t.slots == s.slots[id := if stamp == 0 then 1 else stamp]
      && t.workers[w].phase == p.(done := p.done + 1) && t.inserts == s.inserts + 1
      && t.overwritten == s.overwritten + if s.slots[id] != 0 then 1 else 0
  {
    IdInRange(|s.workers|, w, k);
  }

  /** A reply frees its slot and counts if there was an entry; the counter falls by what
      was counted, but not below 0. */
  lemma ReplyTaken(c: Config, s: State, w: nat, st: Step)
    requires Wellformed(s) && Enabled(c, s, st) && Actor(st) == Some(w)
    ensures var t, p := Apply(c, s, st), s.workers[w].phase;
      && (st.Take? ==>
            && t.slots == s.slots[st.id := 0] && t.inFlight == s.inFlight
            && t.takes == s.takes + (if s.slots[st.id] != 0 then 1 else 0)
            && t.workers[w].phase == Receiving(p.completed + if s.slots[st.id] != 0 then 1 else 0))
      && (st.Subtract? ==> t.inFlight == Lowest(s.inFlight, p.completed) && t.workers[w].phase == AtGate)
      && (st.EndSweep? ==> t.inFlight == Lowest(s.inFlight, p.expired) && t.workers[w].phase == AtGate)
  {
  }

  ghost function Lowest(counter: nat, n: nat): nat {
    if n <= counter then counter - n else 0
  }

  /** An entry stamped `v` is due to expire at `now`: it is older than the timeout, or as old
      if the comparison is inclusive. */
  predicate TooOld(c: Config, now: nat, v: nat) {
    v != 0 && if c.inclusive then now >= v + c.timeout || c.timeout == 0 else now > v + c.timeout
  }

  /** The compare-exchange expires the slot exactly if the value loaded is still there and
      too old at the start of the sweep; else it leaves the slot alone. */
  lemma ExpiresIff(c: Config, s: State)
    requires Wellformed(s) && Enabled(c, s, SweepCas)
    ensures var p, t := s.workers[0].phase, Apply(c, s, SweepCas);
      && (if s.slots[p.next] == p.seen.value && TooOld(c, p.now, p.seen.value)
          then t.slots == s.slots[p.next := 0] && t.expiries == s.expiries + 1
          else t.slots == s.slots && t.expiries == s.expiries)
      && t.workers[0].phase == Sweeping(p.now, p.next + 1, None, p.expired + (t.expiries - s.expiries))
  {
  }

  // ---- A whole sweep, in every interleaving -------------------------------------------------

  /** No step but the sweep's own writes slot `i`, and the sweep does not end. */
  ghost predicate LeftAlone(c: Config, s: State, steps: seq<Step>, i: nat)
    requires Runnable(c, s, steps)
    decreases |steps|
  {
    steps == [] ||
    (!steps[0].EndSweep? && (steps[0].SweepCas? || Written(s, steps[0]) != Some(i))
     && LeftAlone(c, Apply(c, s, steps[0]), steps[1..], i))
  }

  /** During a sweep that began at `now` with `v` in slot `i`: what is in the slot before and
      after the sweep has passed it. */
  ghost predicate Passing(c: Config, s: State, now: nat, i: nat, v: nat) {
    && Wellformed(s) && In(s, 0) && i < SLOTS && s.workers[0].phase.Sweeping? && s.workers[0].phase.now == now
    && var p := s.workers[0].phase;
       if p.next <= i then s.slots[i] == v && (p.next == i && p.seen.Some? ==> p.seen.value == v)
       else s.slots[i] == if TooOld(c, now, v) then 0 else v
  }

  lemma PassingStep(c: Config, s: State, st: Step, now: nat, i: nat, v: nat)
    requires Passing(c, s, now, i, v) && Enabled(c, s, st)
    requires !st.EndSweep? && (st.SweepCas? || Written(s, st) != Some(i))
    ensures Passing(c, Apply(c, s, st), now, i, v)
  {
    Locality(c, s, st);
    if st.SweepCas? { ExpiresIff(c, s); }
  }

  lemma {:induction false} PassingRun(c: Config, s: State, steps: seq<Step>, now: nat, i: nat, v: nat)
    requires Passing(c, s, now, i, v) && Runnable(c, s, steps) && LeftAlone(c, s, steps, i)
    ensures Passing(c, Exec(c, s, steps), now, i, v)
    decreases |steps|
  {
    if steps != [] {
      PassingStep(c, s, steps[0], now, i, v);
      PassingRun(c, Apply(c, s, steps[0]), steps[1..], now, i, v);
    }
  }

  /** Whatever the other workers do meanwhile: a slot that only the sweep touches from the
      start of a sweep to its end is then free if its entry was too old at the start, and
      unchanged if not. */
  lemma SweepDecides(c: Config, s: State, steps: seq<Step>, e: State, i: nat)
    requires Wellformed(s) && Enabled(c, s, StartSweep) && i < SLOTS
    requires var u := Apply(c, s, StartSweep); Leads(c, u, steps, e) && LeftAlone(c, u, steps, i)
    requires Wellformed(e) && Enabled(c, e, EndSweep)
    ensures var t := Apply(c, e, EndSweep);
      |t.slots| == SLOTS && t.slots[i] == if TooOld(c, s.clock, s.slots[i]) then 0 else s.slots[i]
  {
    PassingRun(c, Apply(c, s, StartSweep), steps, s.clock, i, s.slots[i]);
  }

  // ---- A sweep that nothing interrupts --------------------------------------------------------

  /** The sweep has passed `k` slots and freed the old ones among them. */
  ghost predicate SweptTo(c: Config, s: State, t: State, k: nat) {
    && Wellformed(s) && Wellformed(t) && In(s, 0) && k <= SLOTS && t.expiries >= s.expiries
    && t == At(s, 0, Sweeping(s.clock, k, None, t.expiries - s.expiries)).(slots := t.slots, expiries := t.expiries)
    && t.expiries - s.expiries == Occupied(s.slots) - Occupied(t.slots)
    && forall i :: 0 <= i < SLOTS ==>
         t.slots[i] == if i < k && TooOld(c, s.clock, s.slots[i]) then 0 else s.slots[i]
  }

  lemma SweepsOne(c: Config, s: State, t: State, k: nat) returns (u: State)
    requires SweptTo(c, s, t, k) && k < SLOTS
    ensures Leads(c, t, [SweepLoad] + [SweepCas], u) && SweptTo(c, s, u, k + 1)
  {
    var m := Apply(c, t, SweepLoad);
    OneStep(c, t, SweepLoad);
    u := Apply(c, m, SweepCas);
    ExpiresIff(c, m);
    AndThen(c, t, [SweepLoad], m, SweepCas, u);
    if TooOld(c, s.clock, s.slots[k]) { OccupiedUpdate(t.slots, k, 0); }
    assert u.workers == At(s, 0, u.workers[0].phase).workers;
  }

  lemma {:induction false} SweepsOn(c: Config, s: State, t: State, k: nat) returns (steps: seq<Step>, u: State)
    requires SweptTo(c, s, t, k)
    ensures Leads(c, t, steps, u) && SweptTo(c, s, u, SLOTS)
    decreases SLOTS - k
  {
    if k == SLOTS {
      steps, u := [], t;
    } else {
      var m := SweepsOne(c, s, t, k);
      var rest;
      rest, u := SweepsOn(c, s, m, k + 1);
      Then(c, t, [SweepLoad] + [SweepCas], m, rest, u);
      steps := [SweepLoad] + [SweepCas] + rest;
    }
  }

  /** It leaves exactly the entries within the timeout, reports each of the others once and
      takes as many from the counter. */
  lemma SweepAlone(c: Config, s: State) returns (steps: seq<Step>, t: State)
    requires Wellformed(s) && Enabled(c, s, StartSweep)
    ensures Leads(c, s, steps, t) && |t.slots| == SLOTS && t.workers == s.workers
    ensures forall i :: 0 <= i < SLOTS ==> t.slots[i] == if TooOld(c, s.clock, s.slots[i]) then 0 else s.slots[i]
    ensures Occupied(t.slots) + (t.expiries - s.expiries) == Occupied(s.slots)
    ensures t.expiries >= s.expiries && t.inFlight == Lowest(s.inFlight, t.expiries - s.expiries)
  {
    var u := Apply(c, s, StartSweep);
    OneStep(c, s, StartSweep);
    var xs, v := SweepsOn(c, s, u, 0);
    Then(c, s, [StartSweep], u, xs, v);
    t := Apply(c, v, EndSweep);
    AndThen(c, s, [StartSweep] + xs, v, EndSweep, t);
    steps := [StartSweep] + xs + [EndSweep];
    assert t.workers == s.workers;
  }
}
