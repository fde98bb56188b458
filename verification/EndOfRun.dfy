/** The end of a closed-loop XDP run (src/transport/xdp/receiver.rs): worker 0 drains the
    shared table when it leaves its loop, and what it finds is reported as lost. Whether
    that is everything still in flight depends on who leaves last. */
module EndOfRun {
  import opened Machine
  import opened SlotTable
  import opened InFlight
  import opened GateRuns
  import IdRanges

  predicate AllStopped(s: State) {
    forall i :: 0 <= i < |s.workers| ==> s.workers[i].phase.Stopped?
  }

  /** Everyone but worker 0 has left. */
  predicate OthersStopped(s: State) {
    forall i :: 1 <= i < |s.workers| ==> s.workers[i].phase.Stopped?
  }

  // ---- Worker 0 leaves last ------------------------------------------------------------

  /** What the drain has passed is free. */
  ghost predicate DrainedSoFar(s: State)
    requires Wellformed(s) && |s.workers| >= 1
  {
    match s.workers[0].phase
    case Draining(next) => forall i :: 0 <= i < next && i < SLOTS ==> s.slots[i] == 0
    case Stopped => forall i :: 0 <= i < SLOTS ==> s.slots[i] == 0
    case _ => true
  }

  lemma LastStep(c: Config, s: State, st: Step)
    requires Wellformed(s) && |s.workers| >= 1 && Enabled(c, s, st)
    requires OthersStopped(s) && DrainedSoFar(s)
    ensures var t := Apply(c, s, st);
      Wellformed(t) && |t.workers| == |s.workers| && OthersStopped(t) && DrainedSoFar(t)
  {
  }

  /** If the others have left before worker 0 drains, nothing is forgotten: once it has
      left too the table is empty. */
  lemma {:induction false} LastOutLeavesNothing(c: Config, s: State, steps: seq<Step>)
    requires Wellformed(s) && |s.workers| >= 1 && OthersStopped(s) && DrainedSoFar(s)
    requires Runnable(c, s, steps) && AllStopped(Exec(c, s, steps))
    ensures Occupied(Exec(c, s, steps).slots) == 0
    decreases |steps|
  {
    if steps == [] {
      ZeroSum(Marks(s.slots));
    } else {
      LastStep(c, s, steps[0]);
      LastOutLeavesNothing(c, Apply(c, s, steps[0]), steps[1..]);
    }
  }

  // ---- Worker 0 leaves first -----------------------------------------------------------

  /** `n` workers: worker 0 in phase `p`, worker 1 in phase `q`, the next `left - 2` gone
      and the others still at the gate. */
  ghost function Early(n: nat, slots: seq<nat>, g: nat, p: Phase, q: Phase, ctr: nat, left: nat, ins: nat): State {
    State(slots, g, 0,
          seq(n, i => if i == 0 then Worker(p, 0) else if i == 1 then Worker(q, ctr)
                      else if i < left then Worker(Stopped, 0) else Worker(AtGate, 0)),
          ins, 0, 0, 0, 0, 0)
  }

  ghost function Free(): seq<nat> {
    seq(SLOTS, _ => 0)
  }

  /** Worker 0 goes through the rest of the table and leaves. It changes nothing but the
      slots and the tally of drained entries, and neither if the rest is free already. */
  lemma {:induction false} DrainsOut(c: Config, s: State, k: nat) returns (steps: seq<Step>, t: State)
    requires Wellformed(s) && In(s, 0) && s.workers[0].phase == Draining(k) && k <= SLOTS
    ensures Leads(c, s, steps, t)
    ensures t == At(s, 0, Stopped).(slots := t.slots, drained := t.drained)
    ensures (forall i :: k <= i < SLOTS ==> s.slots[i] == 0) ==> t.slots == s.slots && t.drained == s.drained
    decreases SLOTS - k
  {
    if k == SLOTS {
      t := At(s, 0, Stopped);
      OneStep(c, s, EndDrain);
      steps := [EndDrain];
    } else {
      var s1 := Apply(c, s, DrainSlot);
      OneStep(c, s, DrainSlot);
      var rest;
      rest, t := DrainsOut(c, s1, k + 1);
      Then(c, s, [DrainSlot], s1, rest, t);
      steps := [DrainSlot] + rest;
      assert t.workers == At(s, 0, Stopped).workers;
    }
  }

  /** The remaining workers leave, one after the other. */
  lemma {:induction false} OthersLeave(c: Config, n: nat, slots: seq<nat>, left: nat) returns (steps: seq<Step>)
    requires 2 <= left <= n && |slots| == SLOTS
    ensures Leads(c, Early(n, slots, 1, Stopped, Stopped, 1, left, 1), steps, Early(n, slots, 1, Stopped, Stopped, 1, n, 1))
    decreases n - left
  {
    var s := Early(n, slots, 1, Stopped, Stopped, 1, left, 1);
    if left == n {
      steps := [];
    } else {
      var t := Early(n, slots, 1, Stopped, Stopped, 1, left + 1, 1);
      assert Apply(c, s, Shutdown(left)) == t;
      OneStep(c, s, Shutdown(left));
      var rest := OthersLeave(c, n, slots, left + 1);
      Then(c, s, [Shutdown(left)], t, rest, Early(n, slots, 1, Stopped, Stopped, 1, n, 1));
      steps := [Shutdown(left)] + rest;
    }
  }

  /** Worker 1 has a packet in the TX ring when worker 0 starts to drain. */
  lemma StartsEarly(c: Config, n: nat) returns (steps: seq<Step>)
    requires n >= 2
    ensures Leads(c, Init(n), steps, Early(n, Free(), 0, Draining(0), Inserting(0, 1, 0), 1, 2, 0))
  {
    steps := [LoadGate(1, 1), Produce(1, 1, 1), Shutdown(0)];
    assert Init(n) == Early(n, Free(), 0, AtGate, AtGate, 0, 2, 0);
    var s1 := Early(n, Free(), 0, AtGate, Reserved(1), 0, 2, 0);
    var s2 := Early(n, Free(), 0, AtGate, Inserting(0, 1, 0), 1, 2, 0);
    assert Apply(c, Init(n), steps[0]) == s1;
    assert Apply(c, s1, steps[1]) == s2;
    assert Apply(c, s2, steps[2]) == Early(n, Free(), 0, Draining(0), Inserting(0, 1, 0), 1, 2, 0);
    assert steps[1..][1..] == steps[2..] && steps[2..][1..] == [];
  }

  /** It registers its query only after the drain, and leaves. */
  lemma RegistersLate(c: Config, n: nat, id: nat) returns (steps: seq<Step>)
    requires n >= 2 && id == IdRanges.IdAt(n, 1, 0)
    ensures Leads(c, Early(n, Free(), 0, Stopped, Inserting(0, 1, 0), 1, 2, 0), steps,
                  Early(n, Free()[id := 1], 1, Stopped, Stopped, 1, 2, 1))
  {
    var full := Free()[id := 1];
    var s0 := Early(n, Free(), 0, Stopped, Inserting(0, 1, 0), 1, 2, 0);
    var s1 := Early(n, full, 0, Stopped, Inserting(0, 1, 1), 1, 2, 1);
    assert Apply(c, s0, Insert(1, 0)) == s1;
    OneStep(c, s0, Insert(1, 0));
    var rest := AddsAndLeaves(c, n, full);
    Then(c, s0, [Insert(1, 0)], s1, rest, Early(n, full, 1, Stopped, Stopped, 1, 2, 1));
    steps := [Insert(1, 0)] + rest;
  }

  lemma AddsAndLeaves(c: Config, n: nat, full: seq<nat>) returns (steps: seq<Step>)
    requires n >= 2 && |full| == SLOTS
    ensures Leads(c, Early(n, full, 0, Stopped, Inserting(0, 1, 1), 1, 2, 1), steps,
                  Early(n, full, 1, Stopped, Stopped, 1, 2, 1))
  {
    var s := Early(n, full, 0, Stopped, Inserting(0, 1, 1), 1, 2, 1);
    var t := Early(n, full, 1, Stopped, AtGate, 1, 2, 1);
    var xs := AddsLate(c, s, 1);
    assert Counting(s, 1, 1).(inFlight := 1) == t;
    assert Apply(c, t, Shutdown(1)) == Early(n, full, 1, Stopped, Stopped, 1, 2, 1);
    AndThen(c, s, xs, t, Shutdown(1), Early(n, full, 1, Stopped, Stopped, 1, 2, 1));
    steps := xs + [Shutdown(1)];
  }

  /** With a second worker a query can be forgotten: registered after worker 0 has drained
      its slot, it is neither answered nor reported as lost. */
  lemma ForgottenQuery(c: Config, n: nat) returns (steps: seq<Step>)
    requires n >= 2
    ensures Runnable(c, Init(n), steps)
    ensures var s := Exec(c, Init(n), steps);
      && AllStopped(s) && s.inserts == 1
      && s.takes == s.expiries == s.drained == s.overwritten == 0 && Occupied(s.slots) == 1
  {
    var id := IdRanges.IdAt(n, 1, 0);
    var busy := Inserting(0, 1, 0);
    var full := Free()[id := 1];
    var xs := StartsEarly(c, n);
    var s0 := Early(n, Free(), 0, Draining(0), busy, 1, 2, 0);
    var ys, s1 := DrainsOut(c, s0, 0);
    assert s1 == Early(n, Free(), 0, Stopped, busy, 1, 2, 0);
    Then(c, Init(n), xs, s0, ys, s1);
    var zs := RegistersLate(c, n, id);
    var s2 := Early(n, full, 1, Stopped, Stopped, 1, 2, 1);
    Then(c, Init(n), xs + ys, s1, zs, s2);
    var ws := OthersLeave(c, n, full, 2);
    Then(c, Init(n), xs + ys + zs, s2, ws, Early(n, full, 1, Stopped, Stopped, 1, n, 1));
    steps := xs + ys + zs + ws;
    OccupiedUpdate(Free(), id, 1);
    ZeroSum(Marks(Free()));
  }

  /** A query can also be forgotten by a lone worker, if the cap leaves room for two: it is
      overwritten by a later query under the same id. */
  lemma OverwrittenQuery(c: Config) returns (steps: seq<Step>)
    requires c.cap >= 2
    ensures Runnable(c, Init(1), steps)
    ensures var s := Exec(c, Init(1), steps);
      AllStopped(s) && s.overwritten == 1 && s.inserts == s.takes + s.expiries + s.drained + 1
  {
    var n := 1;
    var xs, ctr, a := ReuseLeaks(c, n);
    var s := Sent(Init(n), 0, ctr, 0, 2, a);
    var t := At(s, 0, Draining(0));
    AndThen(c, Init(1), xs, s, Shutdown(0), t);
    var ys, u := DrainsOut(c, t, 0);
    Then(c, Init(1), xs + [Shutdown(0)], t, ys, u);
    steps := xs + [Shutdown(0)] + ys;
    SoloForgets(c, n, steps);
  }

  /** With one worker, what is forgotten are exactly the overwritten queries, and they are
      always fewer than the cap. */
  lemma SoloForgets(c: Config, n: nat, steps: seq<Step>)
    requires n == 1 && Runnable(c, Init(n), steps) && AllStopped(Exec(c, Init(n), steps))
    ensures var s := Exec(c, Init(n), steps);
      s.inserts == s.takes + s.expiries + s.drained + s.overwritten && s.overwritten < c.cap
  {
    LastOutLeavesNothing(c, Init(n), steps);
    EveryEntryAccounted(c, n, steps);
    SoloFromInit(c, n, steps);
  }

  /** Once the workers have left, every query that was ever registered has been answered,
      expired or reported as lost by the drain. */
  ghost predicate NothingForgotten(c: Config, n: nat) {
    forall steps :: Runnable(c, Init(n), steps) && AllStopped(Exec(c, Init(n), steps)) ==>
      var s := Exec(c, Init(n), steps); s.inserts == s.takes + s.expiries + s.drained
  }

  /** That holds of every run exactly with one worker and a cap of one. */
  lemma NothingForgottenIff(c: Config, n: nat)
    requires n >= 1
    ensures NothingForgotten(c, n) <==> n == 1 && c.cap == 1
  {
    if n == 1 && c.cap == 1 {
      forall steps | Runnable(c, Init(n), steps) && AllStopped(Exec(c, Init(n), steps))
        ensures var s := Exec(c, Init(n), steps); s.inserts == s.takes + s.expiries + s.drained
      {
        SoloForgets(c, n, steps);
      }
    } else if n >= 2 {
      var steps := ForgottenQuery(c, n);
      assert Runnable(c, Init(n), steps);
    } else {
      var steps := OverwrittenQuery(c);
      EveryEntryAccounted(c, n, steps);
      assert Runnable(c, Init(n), steps);
    }
  }
}
