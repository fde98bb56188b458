/** Runs of the shared in-flight table, built step by step, and what they decide: that
    the bound on the gate is reached, when the counter can leave the truth, and when it
    can leave it far enough to close the gate for good. */
module GateRuns {
  import opened Machine
  import opened IdRanges
  import opened SlotTable
  import opened InFlight

  /** `steps` lead from `s` to `t`. */
  ghost predicate Leads(c: Config, s: State, steps: seq<Step>, t: State) {
    Runnable(c, s, steps) && Exec(c, s, steps) == t
  }

  lemma OneStep(c: Config, s: State, st: Step)
    requires Wellformed(s) && Enabled(c, s, st) && Wellformed(Apply(c, s, st))
    ensures Leads(c, s, [st], Apply(c, s, st))
  {
    assert [st][1..] == [];
  }

  lemma {:induction false} Then(c: Config, s: State, xs: seq<Step>, t: State, ys: seq<Step>, u: State)
    requires Leads(c, s, xs, t) && Leads(c, t, ys, u)
    ensures Leads(c, s, xs + ys, u)
    decreases |xs|
  {
    if xs == [] {
      assert xs + ys == ys;
    } else {
      Then(c, Apply(c, s, xs[0]), xs[1..], t, ys, u);
      assert (xs + ys)[1..] == xs[1..] + ys;
    }
  }

  /** One more step at the end of a run. */
  lemma AndThen(c: Config, s: State, xs: seq<Step>, t: State, st: Step, u: State)
    requires Leads(c, s, xs, t) && Wellformed(t) && Enabled(c, t, st) && Apply(c, t, st) == u && Wellformed(u)
    ensures Leads(c, s, xs + [st], u)
  {
    OneStep(c, t, st);
    Then(c, s, xs, t, [st], u);
  }

  // ---- One worker at the open gate -------------------------------------------------

  ghost predicate GateOpen(c: Config, s: State, w: nat) {
    Wellformed(s) && In(s, w) && s.workers[w].phase.AtGate? && s.inFlight < c.cap
  }

  /** Worker `w` back at the gate with its id counter at `ctr`. */
  ghost function Counting(s: State, w: nat, ctr: nat): State
    requires In(s, w)
  {
    s.(workers := s.workers[w := Worker(AtGate, ctr)])
  }

  /** `k` queries more that were all answered, with worker `w` back at the gate. */
  ghost function Answered(s: State, w: nat, ctr: nat, k: nat): State
    requires In(s, w)
  {
    Counting(s, w, ctr).(inserts := s.inserts + k, takes := s.takes + k)
  }

  /** The first half of a batch of one: a query is registered, at time 0, under the next id. */
  lemma Registers(c: Config, s: State, w: nat, t: State) returns (steps: seq<Step>)
    requires GateOpen(c, s, w)
    requires var k := s.workers[w].idCtr; var id := IdAt(|s.workers|, w, k);
      t == s.(workers := s.workers[w := Worker(Inserting(k, 1, 1), k + 1)], slots := s.slots[id := 1],
              inserts := s.inserts + 1, overwritten := s.overwritten + Mark(s.slots[id]))
    ensures Leads(c, s, steps, t)
  {
    var k := s.workers[w].idCtr;
    var s1 := At(s, w, Reserved(1));
    var s2 := s.(workers := s.workers[w := Worker(Inserting(k, 1, 0), k + 1)]);
    assert Apply(c, s, LoadGate(w, 1)) == s1;
    OneStep(c, s, LoadGate(w, 1));
    AndThen(c, s, [LoadGate(w, 1)], s1, Produce(w, 1, 1), s2);
    AndThen(c, s, [LoadGate(w, 1)] + [Produce(w, 1, 1)], s2, Insert(w, 0), t);
    steps := [LoadGate(w, 1)] + [Produce(w, 1, 1)] + [Insert(w, 0)];
  }

  /** The second half, with the reply already there: added, taken and subtracted. */
  lemma TakesReply(c: Config, s: State, w: nat, id: nat) returns (steps: seq<Step>)
    requires Wellformed(s) && In(s, w) && s.workers[w].phase.Inserting? && id < SLOTS && s.slots[id] == 1
    requires s.workers[w].phase.done == s.workers[w].phase.enq == 1
    ensures Leads(c, s, steps, Counting(s, w, s.workers[w].idCtr).(slots := s.slots[id := 0], takes := s.takes + 1))
  {
    var s1 := At(s, w, Receiving(0)).(inFlight := s.inFlight + 1);
    var s2 := At(s, w, Receiving(1)).(inFlight := s.inFlight + 1, slots := s.slots[id := 0], takes := s.takes + 1);
    var t := Counting(s, w, s.workers[w].idCtr).(slots := s.slots[id := 0], takes := s.takes + 1);
    assert Apply(c, s, AddBatch(w)) == s1;
    OneStep(c, s, AddBatch(w));
    AndThen(c, s, [AddBatch(w)], s1, Take(w, id), s2);
    AndThen(c, s, [AddBatch(w)] + [Take(w, id)], s2, Subtract(w), t);
    steps := [AddBatch(w)] + [Take(w, id)] + [Subtract(w)];
  }

  /** A query under a free id, answered in the same iteration: an id is spent. */
  lemma SpendsId(c: Config, s: State, w: nat) returns (steps: seq<Step>)
    requires GateOpen(c, s, w) && s.slots[IdAt(|s.workers|, w, s.workers[w].idCtr)] == 0
    ensures Leads(c, s, steps, Answered(s, w, s.workers[w].idCtr + 1, 1))
  {
    var k := s.workers[w].idCtr;
    var id := IdAt(|s.workers|, w, k);
    var t := s.(workers := s.workers[w := Worker(Inserting(k, 1, 1), k + 1)], slots := s.slots[id := 1],
                inserts := s.inserts + 1);
    var xs := Registers(c, s, w, t);
    var ys := TakesReply(c, t, w, id);
    assert s.slots[id := 1][id := 0] == s.slots;
    Then(c, s, xs, t, ys, Answered(s, w, k + 1, 1));
    steps := xs + ys;
  }

  /** `k` queries, sent one after the other under the same id, of which all but the last
      are overwritten, and `a` others that were answered. */
  ghost function Sent(s: State, w: nat, ctr: nat, id: nat, k: nat, a: nat): State
    requires Wellformed(s) && In(s, w) && id < SLOTS && k >= 1
  {
    Answered(s, w, ctr, a).(slots := s.slots[id := 1], inFlight := s.inFlight + k,
                            inserts := s.inserts + k + a, overwritten := s.overwritten + Mark(s.slots[id]) + (k - 1))
  }

  /** Worker `w` sends one query at time 0 under its next id. */
  lemma SendsOne(c: Config, s: State, w: nat) returns (steps: seq<Step>)
    requires GateOpen(c, s, w)
    ensures var k := s.workers[w].idCtr;
      Leads(c, s, steps, Sent(s, w, k + 1, IdAt(|s.workers|, w, k), 1, 0))
  {
    var k := s.workers[w].idCtr;
    var id := IdAt(|s.workers|, w, k);
    var t := s.(workers := s.workers[w := Worker(Inserting(k, 1, 1), k + 1)], slots := s.slots[id := 1],
                inserts := s.inserts + 1, overwritten := s.overwritten + Mark(s.slots[id]));
    var xs := Registers(c, s, w, t);
    var ys := AddsLate(c, t, w);
    Then(c, s, xs, t, ys, Sent(s, w, k + 1, id, 1, 0));
    steps := xs + ys;
  }

  /** Worker `w` adds the batch of one it has inserted and returns to the gate. */
  lemma AddsLate(c: Config, s: State, w: nat) returns (steps: seq<Step>)
    requires Wellformed(s) && In(s, w) && s.workers[w].phase.Inserting?
    requires s.workers[w].phase.done == s.workers[w].phase.enq == 1
    ensures Leads(c, s, steps, Counting(s, w, s.workers[w].idCtr).(inFlight := s.inFlight + 1))
  {
    var s1 := At(s, w, Receiving(0)).(inFlight := s.inFlight + 1);
    assert Apply(c, s, AddBatch(w)) == s1;
    OneStep(c, s, AddBatch(w));
    AndThen(c, s, [AddBatch(w)], s1, Subtract(w), Counting(s, w, s.workers[w].idCtr).(inFlight := s.inFlight + 1));
    steps := [AddBatch(w)] + [Subtract(w)];
  }

  // ---- Worker 0 uses id 0 again and again ------------------------------------------

  /** Worker 0 has no query out except perhaps under id 0. */
  ghost predicate OthersFree(s: State) {
    Wellformed(s) && forall i :: 1 <= i < Span(|s.workers|) && i < SLOTS ==> s.slots[i] == 0
  }

  lemma OwnId(n: nat, ctr: nat)
    requires n >= 1
    ensures Span(n) <= SLOTS && IdAt(n, 0, ctr) == ctr % Span(n)
  {
    ModUnique(0, n, 0, 0);
    assert 0 <= ctr % Span(n) < Span(n);
  }

  /** How many ids worker 0 has to spend until its next one is 0. */
  ghost function Rest(ctr: nat, m: nat): nat
    requires m > 0
  {
    if ctr % m == 0 then 0 else m - ctr % m
  }

  lemma RestFalls(ctr: nat, m: nat)
    requires m > 0 && ctr % m != 0
    ensures Rest(ctr + 1, m) == Rest(ctr, m) - 1
  {
    var q, r := ctr / m, ctr % m;
    assert ctr == m * q + r;
    if r + 1 == m {
      assert ctr + 1 == m * (q + 1) + 0;
      ModUnique(ctr + 1, m, q + 1, 0);
    } else {
      ModUnique(ctr + 1, m, q, r + 1);
    }
  }

  /** Worker 0 spends ids until its next one is 0. */
  lemma {:induction false} BackToZero(c: Config, s: State) returns (steps: seq<Step>, a: nat)
    requires GateOpen(c, s, 0) && OthersFree(s)
    ensures var k := s.workers[0].idCtr;
      Leads(c, s, steps, Answered(s, 0, k + a, a)) && (k + a) % Span(|s.workers|) == 0
    decreases Rest(s.workers[0].idCtr, Span(|s.workers|))
  {
    var n, k := |s.workers|, s.workers[0].idCtr;
    if k % Span(n) == 0 {
      assert Answered(s, 0, k, 0) == s;
      steps, a := [], 0;
    } else {
      OwnId(n, k);
      RestFalls(k, Span(n));
      var xs := SpendsId(c, s, 0);
      var t := Answered(s, 0, k + 1, 1);
      var ys, b := BackToZero(c, t);
      assert Answered(t, 0, k + 1 + b, b) == Answered(s, 0, k + (1 + b), 1 + b);
      Then(c, s, xs, t, ys, Answered(s, 0, k + (1 + b), 1 + b));
      steps, a := xs + ys, 1 + b;
    }
  }

  /** Back at id 0, it sends under that. */
  lemma SendsUnderZero(c: Config, s: State) returns (steps: seq<Step>, ctr: nat, a: nat)
    requires GateOpen(c, s, 0) && OthersFree(s)
    ensures Leads(c, s, steps, Sent(s, 0, ctr, 0, 1, a))
  {
    var xs;
    xs, a := BackToZero(c, s);
    ctr := s.workers[0].idCtr + a + 1;
    var t := Answered(s, 0, s.workers[0].idCtr + a, a);
    OwnId(|s.workers|, s.workers[0].idCtr + a);
    var ys := SendsOne(c, t, 0);
    assert Sent(t, 0, ctr, 0, 1, 0) == Sent(s, 0, ctr, 0, 1, a);
    Then(c, s, xs, t, ys, Sent(s, 0, ctr, 0, 1, a));
    steps := xs + ys;
  }

  /** `k` queries under id 0 that are never answered, while all those in between are. */
  lemma {:induction false} PilesUp(c: Config, s: State, k: nat) returns (steps: seq<Step>, ctr: nat, a: nat)
    requires GateOpen(c, s, 0) && OthersFree(s) && k >= 1 && s.inFlight + k <= c.cap
    ensures Leads(c, s, steps, Sent(s, 0, ctr, 0, k, a))
    decreases k
  {
    steps, ctr, a := SendsUnderZero(c, s);
    if k > 1 {
      var t := Sent(s, 0, ctr, 0, 1, a);
      var rest, ctr', b := PilesUp(c, t, k - 1);
      assert t.slots[0 := 1] == t.slots;
      assert Sent(t, 0, ctr', 0, k - 1, b) == Sent(s, 0, ctr', 0, k, a + b);
      Then(c, s, steps, t, rest, Sent(s, 0, ctr', 0, k, a + b));
      steps, ctr, a := steps + rest, ctr', a + b;
    }
  }

  // ---- The bound on the gate is reached --------------------------------------------

  /** The first `k` workers have passed the gate with `m` each. */
  ghost function Passed(s: State, k: nat, m: nat): State {
    s.(workers := seq(|s.workers|, i requires 0 <= i < |s.workers| =>
         if i < k then s.workers[i].(phase := Reserved(m)) else s.workers[i]))
  }

  lemma {:induction false} AllPass(c: Config, s: State, k: nat, m: nat) returns (steps: seq<Step>)
    requires Wellformed(s) && k <= |s.workers| && 0 < m <= TX_BATCH && s.inFlight + m == c.cap
    requires forall i :: 0 <= i < |s.workers| ==> s.workers[i].phase.AtGate?
    ensures Leads(c, Passed(s, k, m), steps, Passed(s, |s.workers|, m))
    decreases |s.workers| - k
  {
    if k == |s.workers| {
      steps := [];
    } else {
      var t := Passed(s, k, m);
      assert Apply(c, t, LoadGate(k, m)).workers == Passed(s, k + 1, m).workers;
      OneStep(c, t, LoadGate(k, m));
      var rest := AllPass(c, s, k + 1, m);
      Then(c, t, [LoadGate(k, m)], Passed(s, k + 1, m), rest, Passed(s, |s.workers|, m));
      steps := [LoadGate(k, m)] + rest;
    }
  }

  lemma {:induction false} ConstantSum(xs: seq<nat>, v: nat)
    requires forall i :: 0 <= i < |xs| ==> xs[i] == v
    ensures Sum(xs) == v * |xs|
    decreases |xs|
  {
    if xs != [] { ConstantSum(xs[..|xs| - 1], v); }
  }

  /** The counter can be brought to one batch below the cap with every worker at the gate. */
  lemma OneBatchLeft(c: Config, n: nat) returns (steps: seq<Step>, s: State)
    requires n >= 1
    ensures Leads(c, Init(n), steps, s) && Wellformed(s) && |s.workers| == n && s.inFlight + Batch(c) == c.cap
    ensures forall i :: 0 <= i < n ==> s.workers[i].phase.AtGate?
  {
    var k := c.cap - Batch(c);
    if k == 0 {
      steps, s := [], Init(n);
    } else {
      var ctr, a;
      steps, ctr, a := PilesUp(c, Init(n), k);
      s := Sent(Init(n), 0, ctr, 0, k, a);
    }
  }

  /** The bound is reached at every cap and with any number of workers: they can all
      pass the gate before any of them adds. */
  lemma BoundReached(c: Config, n: nat) returns (steps: seq<Step>)
    requires n >= 1
    ensures Runnable(c, Init(n), steps)
    ensures var s := Exec(c, Init(n), steps);
      s.inFlight + Sum(Claims(s.workers)) == c.cap + Batch(c) * (n - 1)
  {
    var xs, s := OneBatchLeft(c, n);
    assert Passed(s, 0, Batch(c)).workers == s.workers;
    var ys := AllPass(c, s, 0, Batch(c));
    Then(c, Init(n), xs, s, ys, Passed(s, n, Batch(c)));
    steps := xs + ys;
    ConstantSum(Claims(Passed(s, n, Batch(c)).workers), Batch(c));
    assert Batch(c) * n == Batch(c) + Batch(c) * (n - 1);
  }

  // ---- A reply that overtakes its own registration -----------------------------------

  /** `n` workers, of which only the first two have done anything. */
  ghost function Pair(n: nat, slots: seq<nat>, p: Phase, q: Phase, ctr: nat, ins: nat, took: nat, clip: nat): State {
    State(slots, 0, 0, seq(n, i => if i == 0 then Worker(p, 0) else if i == 1 then Worker(q, ctr) else Worker(AtGate, 0)),
          ins, took, 0, 0, 0, clip)
  }

  /** Worker 1 passes the gate and inserts its query; its add is still to come. */
  lemma InsertsFirst(c: Config, n: nat, free: seq<nat>, id: nat) returns (steps: seq<Step>)
    requires n >= 2 && free == Init(n).slots && id == IdAt(n, 1, 0)
    ensures Leads(c, Init(n), steps, Pair(n, free[id := 1], Receiving(0), Inserting(0, 1, 1), 1, 1, 0, 0))
  {
    steps := [LoadGate(0, 0), LoadGate(1, 1), Produce(1, 1, 1), Insert(1, 0)];
    assert Init(n) == Pair(n, free, AtGate, AtGate, 0, 0, 0, 0);
    var s1 := Pair(n, free, Receiving(0), AtGate, 0, 0, 0, 0);
    var s2 := Pair(n, free, Receiving(0), Reserved(1), 0, 0, 0, 0);
    var s3 := Pair(n, free, Receiving(0), Inserting(0, 1, 0), 1, 0, 0, 0);
    assert Apply(c, Init(n), steps[0]) == s1;
    assert Apply(c, s1, steps[1]) == s2;
    assert Apply(c, s2, steps[2]) == s3;
    assert Apply(c, s3, steps[3]) == Pair(n, free[id := 1], Receiving(0), Inserting(0, 1, 1), 1, 1, 0, 0);
    assert steps[1..][1..] == steps[2..] && steps[2..][1..] == steps[3..] && steps[3..][1..] == [];
  }

  /** Worker 0 takes the reply and subtracts it from a counter still at 0. */
  lemma SubtractsFirst(c: Config, n: nat, free: seq<nat>, id: nat) returns (steps: seq<Step>)
    requires n >= 2 && free == Init(n).slots && id < SLOTS
    ensures Leads(c, Pair(n, free[id := 1], Receiving(0), Inserting(0, 1, 1), 1, 1, 0, 0), steps,
                  Pair(n, free, AtGate, Inserting(0, 1, 1), 1, 1, 1, 1))
  {
    var s0 := Pair(n, free[id := 1], Receiving(0), Inserting(0, 1, 1), 1, 1, 0, 0);
    var s1 := Pair(n, free, Receiving(1), Inserting(0, 1, 1), 1, 1, 1, 0);
    assert free[id := 1][id := 0] == free;
    assert Apply(c, s0, Take(0, id)) == s1;
    OneStep(c, s0, Take(0, id));
    assert Apply(c, s1, Subtract(0)) == Pair(n, free, AtGate, Inserting(0, 1, 1), 1, 1, 1, 1);
    AndThen(c, s0, [Take(0, id)], s1, Subtract(0), Pair(n, free, AtGate, Inserting(0, 1, 1), 1, 1, 1, 1));
    steps := [Take(0, id)] + [Subtract(0)];
  }

  lemma Overtakes(c: Config, n: nat) returns (steps: seq<Step>)
    requires n >= 2
    ensures Leads(c, Init(n), steps, Pair(n, Init(n).slots, AtGate, Inserting(0, 1, 1), 1, 1, 1, 1))
  {
    var free, id := Init(n).slots, IdAt(n, 1, 0);
    var xs := InsertsFirst(c, n, free, id);
    var ys := SubtractsFirst(c, n, free, id);
    Then(c, Init(n), xs, Pair(n, free[id := 1], Receiving(0), Inserting(0, 1, 1), 1, 1, 0, 0), ys,
         Pair(n, free, AtGate, Inserting(0, 1, 1), 1, 1, 1, 1));
    steps := xs + ys;
  }

  /** Any two workers are enough to leak: worker 0 takes and subtracts worker 1's reply
      between worker 1's insert and add. The run ends with an empty table, nobody
      mid-batch, and a counter stuck at 1. */
  lemma SaturationLeaks(c: Config, n: nat) returns (steps: seq<Step>)
    requires n >= 2
    ensures Runnable(c, Init(n), steps)
    ensures var s := Exec(c, Init(n), steps);
      s.inFlight == 1 && s.clipped == 1 && Occupied(s.slots) == 0 && Running(s) && Quiet(s) && NoBatch(s)
  {
    var s := Pair(n, Init(n).slots, AtGate, Inserting(0, 1, 1), 1, 1, 1, 1);
    var xs := Overtakes(c, n);
    var ys := AddsLate(c, s, 1);
    Then(c, Init(n), xs, s, ys, Counting(s, 1, 1).(inFlight := 1));
    steps := xs + ys;
    ZeroSum(Marks(s.slots));
  }

  // ---- One worker alone -------------------------------------------------------------

  lemma SumOne(xs: seq<nat>)
    requires |xs| == 1
    ensures Sum(xs) == xs[0]
  {
    assert xs[..0] == [];
  }

  /** Worker 0 has not been told to stop. */
  predicate Running(s: State) {
    In(s, 0) && !s.workers[0].phase.Draining? && !s.workers[0].phase.Stopped?
  }

  /** A lone worker's subtractions are never clipped, it drains only at the end, and it
      overwrites fewer entries than the cap. */
  ghost predicate Solo(c: Config, s: State) {
    && Inv(c, s) && |s.workers| == 1
    && s.clipped == 0 && s.overwritten < c.cap
    && (Running(s) ==> s.drained == 0)
  }

  /** A lone worker has added its batch before it subtracts anything. */
  lemma SoloNeverClips(c: Config, s: State, st: Step)
    requires Wellformed(s) && Gate(s) && |s.workers| == 1 && Enabled(c, s, st)
    ensures Apply(c, s, st).clipped == s.clipped
  {
    SumOne(ToAdds(s.workers));
    SumOne(ToSubtracts(s.workers));
  }

  /** The entry it writes is itself within the cap, so the overwritten ones are below it. */
  lemma SoloOverwrites(c: Config, t: State, i: nat)
    requires Inv(c, t) && |t.workers| == 1 && t.workers[0].phase.Inserting?
    requires i < SLOTS && t.slots[i] != 0
    ensures t.overwritten < c.cap
  {
    SumOne(ToAdds(t.workers));
    SumOne(ToSubtracts(t.workers));
    SumOne(Claims(t.workers));
    OccupiedPositive(t.slots, i);
    assert SanePhase(c, t.workers[0].phase, t.clock);
  }

  lemma SoloStep(c: Config, s: State, st: Step)
    requires Solo(c, s) && Enabled(c, s, st)
    ensures Solo(c, Apply(c, s, st))
  {
    var t := Apply(c, s, st);
    StepKeeps(c, s, st);
    SoloNeverClips(c, s, st);
    if st.Insert? {
      SoloOverwrites(c, t, Written(s, st).value);
    }
  }

  lemma {:induction false} SoloRun(c: Config, s: State, steps: seq<Step>)
    requires Solo(c, s) && Runnable(c, s, steps)
    ensures Solo(c, Exec(c, s, steps))
    decreases |steps|
  {
    if steps != [] {
      SoloStep(c, s, steps[0]);
      SoloRun(c, Apply(c, s, steps[0]), steps[1..]);
    }
  }

  lemma SoloFromInit(c: Config, n: nat, steps: seq<Step>)
    requires n == 1 && Runnable(c, Init(n), steps)
    ensures Solo(c, Exec(c, Init(n), steps))
  {
    InitInv(c, n);
    SoloRun(c, Init(n), steps);
  }

  // ---- When the counter can be trusted -------------------------------------------------

  /** No subtraction is ever clipped, in any run. */
  ghost predicate NeverClips(c: Config, n: nat) {
    forall steps :: Runnable(c, Init(n), steps) ==> Exec(c, Init(n), steps).clipped == 0
  }

  /** So the counter is safe from the saturating subtraction exactly with one worker. */
  lemma NeverClipsIff(c: Config, n: nat)
    requires n >= 1
    ensures NeverClips(c, n) <==> n == 1
  {
    if n == 1 {
      forall steps | Runnable(c, Init(n), steps) ensures Exec(c, Init(n), steps).clipped == 0 {
        SoloFromInit(c, n, steps);
      }
    } else {
      var steps := SaturationLeaks(c, n);
      assert Exec(c, Init(n), steps).clipped == 1;
    }
  }

  /** While the run lasts, the counter is the number of outstanding queries whenever no
      worker is between a table access and its counter access. */
  ghost predicate Accurate(c: Config, n: nat) {
    forall steps :: Runnable(c, Init(n), steps) && Running(Exec(c, Init(n), steps)) && Quiet(Exec(c, Init(n), steps)) ==>
      var s := Exec(c, Init(n), steps); s.inFlight == Occupied(s.slots)
  }

  /** With room for two queries, worker 0 can come back to an id whose query is still
      unanswered: one slot is occupied and the counter says two. */
  lemma ReuseLeaks(c: Config, n: nat) returns (steps: seq<Step>, ctr: nat, a: nat)
    requires n >= 1 && c.cap >= 2
    ensures Leads(c, Init(n), steps, Sent(Init(n), 0, ctr, 0, 2, a))
    ensures var s := Exec(c, Init(n), steps);
      s.inFlight == 2 && s.overwritten == 1 && Occupied(s.slots) == 1 && Running(s) && Quiet(s)
  {
    steps, ctr, a := PilesUp(c, Init(n), 2);
    OccupiedUpdate(Init(n).slots, 0, 1);
    ZeroSum(Marks(Init(n).slots));
  }

  /** The counter is accurate in every run exactly with one worker and a cap of one. */
  lemma AccurateIff(c: Config, n: nat)
    requires n >= 1
    ensures Accurate(c, n) <==> n == 1 && c.cap == 1
  {
    if n == 1 && c.cap == 1 {
      forall steps | Runnable(c, Init(n), steps) && Running(Exec(c, Init(n), steps)) && Quiet(Exec(c, Init(n), steps))
        ensures var s := Exec(c, Init(n), steps); s.inFlight == Occupied(s.slots)
      {
        SoloFromInit(c, n, steps);
        AccurateIffNoLeak(c, n, steps);
      }
    } else if n >= 2 {
      var steps := SaturationLeaks(c, n);
      assert Runnable(c, Init(n), steps);
    } else {
      var steps, _, _ := ReuseLeaks(c, n);
      assert Runnable(c, Init(n), steps);
    }
  }

  // ---- When the gate can close for good --------------------------------------------------

  /** Some run jams the gate before the workers are told to stop. */
  ghost predicate Jams(c: Config, n: nat) {
    exists steps :: Runnable(c, Init(n), steps) &&
      Running(Exec(c, Init(n), steps)) && Jammed(c, Exec(c, Init(n), steps))
  }

  /** A reply overtakes its registration, then worker 0 fills the gate under one id. */
  lemma JamReached(c: Config, n: nat) returns (steps: seq<Step>)
    requires n >= 2
    ensures Runnable(c, Init(n), steps)
    ensures var s := Exec(c, Init(n), steps); Running(s) && Jammed(c, s) && Leak(s) == c.cap
  {
    var s := Pair(n, Init(n).slots, AtGate, Inserting(0, 1, 1), 1, 1, 1, 1);
    var xs := Overtakes(c, n);
    var ys, ctr, a := PilesUp(c, s, c.cap);
    var t := Sent(s, 0, ctr, 0, c.cap, a);
    Then(c, Init(n), xs, s, ys, t);
    var zs := AddsLate(c, t, 1);
    Then(c, Init(n), xs + ys, t, zs, Counting(t, 1, 1).(inFlight := c.cap + 1));
    steps := xs + ys + zs;
  }

  /** That is possible at every cap, and exactly with more than one worker. */
  lemma JamsIff(c: Config, n: nat)
    requires n >= 1
    ensures Jams(c, n) <==> n >= 2
  {
    if n >= 2 {
      var steps := JamReached(c, n);
      assert Runnable(c, Init(n), steps);
    } else {
      forall steps | Runnable(c, Init(n), steps)
        ensures Running(Exec(c, Init(n), steps)) ==> !Jammed(c, Exec(c, Init(n), steps))
      {
        SoloFromInit(c, n, steps);
      }
    }
  }

  /** A run that has jammed the gate sends nothing more, however it goes on. */
  lemma JammedForGood(c: Config, n: nat, xs: seq<Step>, ys: seq<Step>)
    requires n >= 1 && Runnable(c, Init(n), xs) && Jammed(c, Exec(c, Init(n), xs))
    requires Runnable(c, Exec(c, Init(n), xs), ys)
    ensures Exec(c, Exec(c, Init(n), xs), ys).inserts == Exec(c, Init(n), xs).inserts
  {
    InitInv(c, n);
    RunKeeps(c, Init(n), xs);
    LeakJamsTheGate(c, Exec(c, Init(n), xs), ys);
  }
}
