/** The DSD ramp controller (src/engine/ramp.rs): doubling until a step misses the
    SLO, then bisection of the bracket, with the SLO derived from the lowest p50 seen. */
module Ramp {
  import opened Machine

  const MAX_DOUBLINGS: nat := 20
  const MAX_BISECT: nat := 14
  const START_QPS: nat := 100_000
  const SLO_MARGIN_US: nat := 1_000
  const U64_MAX: nat := 0xffff_ffff_ffff_ffff

  datatype Phase = Exp | Bisect

  datatype Ctrl = Ctrl(
    current: nat, lastStable: nat, doublings: nat, phase: Phase,
    lo: nat, hi: nat, bisectSteps: nat, xdp: bool, baseline: nat)

  datatype Measurement = Measurement(achieved: nat, p50: nat)

  /** What `advance` returns: the new target, whether it is done, and the answer. */
  datatype Outcome = Outcome(target: nat, saturated: bool, max: nat)

  function New(xdp: bool): Ctrl {
    Ctrl(START_QPS, 0, 0, Exp, 0, 0, 0, xdp, 0)
  }

  function Threshold(baseline: nat): nat {
    var b := Max(baseline, 1);
    Max(3 * b, b + SLO_MARGIN_US)
  }

  function Converged(lo: nat, hi: nat): bool {
    SatSub(hi, lo) <= Max(lo / 20, 5_000)
  }

  function Floor(baseline: nat, p50: nat): nat {
    if p50 > 0 && (baseline == 0 || p50 < baseline) then p50 else baseline
  }

  /** Whether the step was sustained. */
  predicate Ok(c: Ctrl, m: Measurement) {
    var latencyOk := m.p50 <= Threshold(Floor(c.baseline, m.p50));
    if c.xdp then latencyOk else latencyOk && m.achieved >= 4 * c.current / 5
  }

  /** The state change for a given verdict. */
  function Decide(c: Ctrl, ok: bool): (Ctrl, Outcome) {
    match c.phase
    case Exp =>
      if ok then
        var d := c.(lastStable := c.current, doublings := c.doublings + 1);
        if d.doublings >= MAX_DOUBLINGS then (d, Outcome(c.current, true, c.current))
        else
          var next := Min(2 * c.current, U64_MAX);
          (d.(current := next), Outcome(next, false, 0))
      else
        Probe(c.(lo := c.lastStable, hi := c.current, phase := Bisect))
    case Bisect =>
      var d := if ok then c.(lo := c.current) else c.(hi := c.current);
      Probe(d.(bisectSteps := c.bisectSteps + 1))
  }

  /** Stop if the bracket is tight enough (or the cap is hit), else test its middle. */
  function Probe(c: Ctrl): (Ctrl, Outcome) {
    if Converged(c.lo, c.hi) || c.bisectSteps >= MAX_BISECT then (c, Outcome(Max(c.lo, 1), true, c.lo))
    else
      var mid := c.lo + SatSub(c.hi, c.lo) / 2;
      (c.(current := mid), Outcome(mid, false, 0))
  }

  function Advance(c: Ctrl, m: Measurement): (Ctrl, Outcome) {
    Decide(c.(baseline := Floor(c.baseline, m.p50)), Ok(c, m))
  }

  class RampController {
    var current: nat
    var lastStable: nat
    var doublings: nat
    var phase: Phase
    var lo: nat
    var hi: nat
    var bisectSteps: nat
    const xdp: bool
    var baseline: nat

    ghost function View(): Ctrl
      reads this
    {
      Ctrl(current, lastStable, doublings, phase, lo, hi, bisectSteps, xdp, baseline)
    }

    /** What the transitions rely on: `hi - lo` never underflows. */
    ghost predicate Valid()
      reads this
    {
      && current <= U64_MAX
      && (phase == Exp ==> lastStable <= current && bisectSteps == 0)
      && (phase == Bisect ==> lo <= current <= hi <= U64_MAX)
    }

    constructor (xdp: bool)
      ensures Valid() && View() == New(xdp)
    {
      this.xdp := xdp;
      current, lastStable, doublings, phase := START_QPS, 0, 0, Exp;
      lo, hi, bisectSteps, baseline := 0, 0, 0, 0;
    }

    /** The SLO for the floor measured so far (1 us before any). */
    method ThresholdUs() returns (t: nat)
      ensures t == Threshold(baseline)
      ensures t == if baseline <= 500 then Max(baseline, 1) + SLO_MARGIN_US else 3 * baseline
    {
      var b := Max(baseline, 1);
      t := Max(3 * b, b + SLO_MARGIN_US);
    }

    /** Tracks the latency floor and judges the step. */
    method Judge(achieved: nat, p50: nat) returns (ok: bool)
      modifies `baseline
      ensures baseline == Floor(old(baseline), p50)
      ensures ok == Ok(old(View()), Measurement(achieved, p50))
      ensures p50 > 0 ==> 0 < baseline <= p50 && (old(baseline) > 0 ==> baseline <= old(baseline))
      ensures baseline == old(baseline) || baseline == p50 > 0
      ensures var b := Max(baseline, 1);
        ok <==> p50 <= Max(3 * b, b + 1000) && (xdp || achieved >= 4 * current / 5)
    {
      if p50 > 0 && (baseline == 0 || p50 < baseline) {
        baseline := p50;
      }
      var offerOk := achieved >= 4 * current / 5;
      var threshold := ThresholdUs();
      var latencyOk := p50 <= threshold;
      ok := if xdp then latencyOk else latencyOk && offerOk;
    }

    method Step(achieved: nat, p50: nat) returns (target: nat, saturated: bool, max: nat)
      requires Valid()
      modifies this
      ensures Valid()
      ensures (View(), Outcome(target, saturated, max)) == Advance(old(View()), Measurement(achieved, p50))
    {
      var ok := Judge(achieved, p50);
      if phase == Exp {
        target, saturated, max := Climb(ok);
      } else {
        if ok { lo := current; } else { hi := current; }
        bisectSteps := bisectSteps + 1;
        target, saturated, max := TestMiddle();
      }
    }

    /** The doubling phase's half of `advance`. */
    method Climb(ok: bool) returns (target: nat, saturated: bool, max: nat)
      requires Valid() && phase == Exp
      modifies this
      ensures Valid()
      ensures (View(), Outcome(target, saturated, max)) == Decide(old(View()), ok)
    {
      if ok {
        lastStable := current;
        doublings := doublings + 1;
        if doublings >= MAX_DOUBLINGS {
          return current, true, current;
        }
        current := Min(2 * current, U64_MAX);
        return current, false, 0;
      }
      lo, hi, phase := lastStable, current, Bisect;
      target, saturated, max := TestMiddle();
    }

    /** The common end of both phases: report the bracket or move to its middle. */
    method TestMiddle() returns (target: nat, saturated: bool, max: nat)
      requires lo <= hi
      modifies `current
      ensures (View(), Outcome(target, saturated, max)) == Probe(old(View()))
      ensures current == old(current) || lo <= current <= hi
    {
      if Converged(lo, hi) || bisectSteps >= MAX_BISECT {
        return Max(lo, 1), true, lo;
      }
      current := lo + (hi - lo) / 2;
      return current, false, 0;
    }
  }

  // ---- Whole ramps --------------------------------------------------------------

  /** One call of `advance`: the controller before and after, and the answer. */
  datatype Call = Call(before: Ctrl, m: Measurement, after: Ctrl, out: Outcome)

  /** The i-th call of a ramp starts where the previous one ended, and every call but
      the last has asked for another one. */
  ghost predicate Linked(xdp: bool, calls: seq<Call>, i: nat)
    requires i < |calls|
  {
    && calls[i].before == (if i == 0 then New(xdp) else calls[i - 1].after)
    && (calls[i].after, calls[i].out) == Advance(calls[i].before, calls[i].m)
    && (i + 1 < |calls| ==> !calls[i].out.saturated)
  }

  /** A ramp: any number of calls, on any measurements. */
  ghost predicate Ramping(xdp: bool, calls: seq<Call>) {
    forall i :: 0 <= i < |calls| ==> Linked(xdp, calls, i)
  }

  /** A ramp whose last call reported saturation. */
  ghost predicate Finished(xdp: bool, calls: seq<Call>) {
    Ramping(xdp, calls) && calls != [] && calls[|calls| - 1].out.saturated
  }

  /** The k-th target of the doubling phase. */
  function Target(k: nat): nat {
    if k == 0 then START_QPS else 2 * Target(k - 1)
  }

  /** A 32nd of the bracket that the doubling phase leaves after `k` passes. */
  ghost function Grain(k: nat): nat {
    Target(SatSub(k, 1)) / 32
  }

  ghost function FirstLo(k: nat): nat {
    if k == 0 then 0 else Target(k - 1)
  }

  lemma {:induction false} TargetGrains(k: nat)
    ensures Target(k) == 32 * (Target(k) / 32) && Target(k) / 32 >= 3125
    decreases k
  {
    if k > 0 {
      TargetGrains(k - 1);
    }
  }

  lemma TargetFacts(k: nat)
    ensures Target(k) >= START_QPS && Grain(k) >= 3125
    ensures FirstLo(k) + 32 * Grain(k) == Target(k)
    ensures if k == 0 then Grain(k) == 3125 else FirstLo(k) == 32 * Grain(k)
  {
    TargetGrains(SatSub(k, 1));
  }

  lemma {:induction false} TargetMono(k: nat, n: nat)
    requires k <= n
    ensures Target(k) <= Target(n)
    decreases n - k
  {
    if k < n { TargetMono(k, n - 1); }
  }

  lemma TargetFits(k: nat)
    requires k <= MAX_DOUBLINGS
    ensures Target(k) <= U64_MAX
  {
    TargetMono(k, MAX_DOUBLINGS);
    assert Target(4) == 1_600_000;
    assert Target(8) == 25_600_000;
    assert Target(12) == 409_600_000;
    assert Target(16) == 6_553_600_000;
    assert Target(20) == 104_857_600_000;
  }

  /** Bracket width after `m` bisection steps: it halves exactly every time. */
  ghost function Width(k: nat, m: nat): nat {
    match m
    case 0 => 32 * Grain(k)
    case 1 => 16 * Grain(k)
    case 2 => 8 * Grain(k)
    case 3 => 4 * Grain(k)
    case 4 => 2 * Grain(k)
    case _ => Grain(k)
  }

  ghost predicate Climbing(c: Ctrl, k: nat) {
    && c.phase == Exp && c.doublings == k < MAX_DOUBLINGS && c.bisectSteps == 0
    && c.current == Target(k) && c.lastStable == FirstLo(k)
  }

  /** The bracket after `k` passes and `m` bisection steps, whatever the verdicts. */
  ghost predicate Bracketed(c: Ctrl, k: nat, m: nat) {
    && c.phase == Bisect && c.doublings == k && c.bisectSteps == m
    && c.hi == c.lo + Width(k, m)
    && FirstLo(k) <= c.lo && c.hi <= Target(k)
  }

  /** Still bisecting: the target is the exact middle. */
  ghost predicate Bisecting(c: Ctrl, k: nat, m: nat) {
    m <= 4 && Bracketed(c, k, m) && c.current == c.lo + Width(k, m + 1)
  }

  /** When a bracket of the right shape counts as converged. */
  lemma ConvergedWhen(lo: nat, k: nat, m: nat)
    requires m <= 5 && FirstLo(k) <= lo && lo + Width(k, m) <= Target(k)
    ensures m <= 3 ==> !Converged(lo, lo + Width(k, m))
    ensures m == 5 ==> Converged(lo, lo + Width(k, m))
    ensures m == 4 && k == 0 ==> !Converged(lo, lo + Width(k, m))
    ensures k > 0 ==> (Converged(lo, lo + Width(k, m)) <==> Width(k, m) <= lo / 20)
  {
    TargetFacts(k);
    TargetFacts(SatSub(k, 1));
  }

  /** Leaving the doubling phase never converges at once. */
  lemma ClimbStep(c: Ctrl, ok: bool, k: nat)
    requires Climbing(c, k)
    ensures var (d, o) := Decide(c, ok);
      if ok && k + 1 == MAX_DOUBLINGS then
        o == Outcome(Target(k), true, Target(k)) && d.phase == Exp && d.doublings == MAX_DOUBLINGS
      else if ok then !o.saturated && o.target == d.current && Climbing(d, k + 1)
      else !o.saturated && o.target == d.current && Bisecting(d, k, 0)
  {
    TargetFacts(k);
    TargetFacts(k + 1);
    TargetFits(k + 1);
    ConvergedWhen(FirstLo(k), k, 0);
  }

  /** Either verdict keeps one exact half of the bracket. */
  lemma HalfKept(c: Ctrl, ok: bool, k: nat, m: nat)
    requires Bisecting(c, k, m)
    ensures var d := (if ok then c.(lo := c.current) else c.(hi := c.current)).(bisectSteps := m + 1);
      Bracketed(d, k, m + 1) && (d.hi - d.lo) / 2 == if m < 4 then Width(k, m + 2) else Grain(k) / 2
  {
  }

  lemma ProbeStep(d: Ctrl, k: nat, m: nat)
    requires 1 <= m <= 5 && Bracketed(d, k, m)
    requires m <= 4 ==> (d.hi - d.lo) / 2 == Width(k, m + 1)
    ensures var (e, o) := Probe(d);
      && e == d.(current := e.current)
      && o.saturated == Converged(d.lo, d.hi)
      && (o.saturated <==> m == 5 || (m == 4 && k > 0 && d.hi - d.lo <= d.lo / 20))
      && (o.saturated ==> o == Outcome(Max(d.lo, 1), true, d.lo))
      && (!o.saturated ==> Bisecting(e, k, m) && o.target == e.current)
  {
    ConvergedWhen(d.lo, k, m);
  }

  /** One bisection step halves the bracket; it ends after 4 or 5 steps, by
      convergence and never by the MAX_BISECT cap. */
  lemma BisectStep(c: Ctrl, ok: bool, k: nat, m: nat)
    requires Bisecting(c, k, m)
    ensures var (d, o) := Decide(c, ok);
      && Bracketed(d, k, m + 1) && m + 1 < MAX_BISECT
      && o.saturated == Converged(d.lo, d.hi)
      && (o.saturated <==> m + 1 == 5 || (m + 1 == 4 && k > 0 && d.hi - d.lo <= d.lo / 20))
      && (o.saturated ==> o == Outcome(Max(d.lo, 1), true, d.lo))
      && (!o.saturated ==> Bisecting(d, k, m + 1) && o.target == d.current)
      && (if ok then d.lo == c.current && d.hi == c.hi else d.lo == c.lo && d.hi == c.current)
  {
    var half := if ok then c.(lo := c.current) else c.(hi := c.current);
    HalfKept(c, ok, k, m);
    ProbeStep(half.(bisectSteps := m + 1), k, m + 1);
  }

  // ---- The SLO over a ramp ------------------------------------------------------------

  /** A higher floor never means a stricter SLO, which is at least 1000 us above it. */
  lemma SloFollowsFloor(b1: nat, b2: nat)
    requires b1 <= b2
    ensures b1 + SLO_MARGIN_US <= Threshold(b1) <= Threshold(b2)
  {
  }

  /** Once a ramp has seen a p50 at all, its floor stays the lowest one seen, so the SLO
      only ever gets stricter. */
  lemma {:induction false} SloOnlyTightens(xdp: bool, calls: seq<Call>, i: nat, j: nat)
    requires Ramping(xdp, calls) && i <= j < |calls| && calls[i].after.baseline > 0
    ensures 0 < calls[j].after.baseline <= calls[i].after.baseline
    ensures Threshold(calls[j].after.baseline) <= Threshold(calls[i].after.baseline)
    ensures forall k :: i <= k <= j && calls[k].m.p50 > 0 ==> calls[j].after.baseline <= calls[k].m.p50
    decreases j - i
  {
    assert Linked(xdp, calls, j);
    DoublingsKept(calls[j].before, calls[j].m);
    if i < j {
      SloOnlyTightens(xdp, calls, i, j - 1);
    } else {
      assert Linked(xdp, calls, i);
    }
    SloFollowsFloor(calls[j].after.baseline, calls[i].after.baseline);
  }

  /** A p50 at or below the floor so far always meets the SLO it is judged by. */
  lemma FloorAlwaysPasses(c: Ctrl, m: Measurement)
    requires c.baseline == 0 || m.p50 <= c.baseline
    ensures m.p50 <= Threshold(Floor(c.baseline, m.p50))
  {
  }

  // ---- Every measurement sequence ---------------------------------------------------

  /** The controller before call `n` (from 0) of a ramp. */
  ghost predicate Shape(c: Ctrl, n: nat) {
    match c.phase
    case Exp => Climbing(c, n)
    case Bisect =>
      var k, m := c.doublings, c.bisectSteps;
      k < MAX_DOUBLINGS && Bisecting(c, k, m) && n == k + 1 + m
  }

  /** The controller after the call `n` that reported saturation. */
  ghost predicate Final(c: Ctrl, n: nat) {
    match c.phase
    case Exp => c.doublings == MAX_DOUBLINGS && n + 1 == MAX_DOUBLINGS && c.lastStable == Target(n)
    case Bisect =>
      var k, m := c.doublings, c.bisectSteps;
      && k < MAX_DOUBLINGS && ((m == 4 && k > 0) || m == 5) && n == k + m
      && Bracketed(c, k, m) && Converged(c.lo, c.hi)
  }

  lemma StepShape(c: Ctrl, m: Measurement, n: nat)
    requires Shape(c, n)
    ensures var (d, o) := Advance(c, m); if o.saturated then Final(d, n) else Shape(d, n + 1)
  {
    var b := c.(baseline := Floor(c.baseline, m.p50));
    if c.phase == Exp {
      ClimbStep(b, Ok(c, m), n);
    } else {
      BisectStep(b, Ok(c, m), c.doublings, c.bisectSteps);
    }
  }

  lemma NextShape(xdp: bool, calls: seq<Call>, n: nat)
    requires Ramping(xdp, calls) && n + 1 < |calls| && Shape(calls[n].before, n)
    ensures Shape(calls[n + 1].before, n + 1)
  {
    StepShape(calls[n].before, calls[n].m, n);
    assert Linked(xdp, calls, n) && Linked(xdp, calls, n + 1);
  }

  lemma {:induction false} ShapeAt(xdp: bool, calls: seq<Call>, n: nat)
    requires Ramping(xdp, calls) && n < |calls|
    ensures Shape(calls[n].before, n)
    decreases n
  {
    if n == 0 {
      assert Linked(xdp, calls, 0);
    } else {
      ShapeAt(xdp, calls, n - 1);
      NextShape(xdp, calls, n - 1);
    }
  }

  /** Every ramp ends within 25 calls, on any measurements at all: after 20 passed
      doublings, or after 4 or 5 bisection steps (5 if the first step failed), with a
      bracket that meets the 5 % tolerance. Neither the MAX_BISECT cap nor convergence
      on leaving the doubling phase is ever what stops it. */
  lemma RampEnds(xdp: bool, calls: seq<Call>)
    requires Ramping(xdp, calls)
    ensures |calls| <= 25
    ensures Finished(xdp, calls) ==> Final(calls[|calls| - 1].after, |calls| - 1)
  {
    if calls != [] {
      var n := |calls| - 1;
      ShapeAt(xdp, calls, n);
      assert Linked(xdp, calls, n);
      StepShape(calls[n].before, calls[n].m, n);
    }
  }

  /** While bisecting, the target tested is the exact middle of the bracket. */
  lemma TargetInsideBracket(xdp: bool, calls: seq<Call>, n: nat)
    requires Ramping(xdp, calls) && n < |calls| && calls[n].before.phase == Bisect
    ensures var c := calls[n].before; c.lo < c.current < c.hi && c.hi - c.current == c.current - c.lo
  {
    ShapeAt(xdp, calls, n);
    TargetFacts(calls[n].before.doublings);
  }

  /** The final bracket: within 5 % of its lower end, or 3125 wide inside [0, 100000]. */
  lemma FinalBracketTight(c: Ctrl, n: nat)
    requires Final(c, n) && c.phase == Bisect
    ensures c.lo < c.hi
    ensures if c.doublings > 0 then c.lo >= START_QPS && c.hi - c.lo <= c.lo / 20
            else c.hi - c.lo == 3125 && c.hi <= START_QPS
  {
    TargetFacts(c.doublings);
    TargetFacts(SatSub(c.doublings, 1));
  }

  /** In XDP mode the first step always passes. */
  lemma XdpFirstStepPasses(m: Measurement)
    ensures Ok(New(true), m) && Advance(New(true), m).0.doublings == 1
  {
  }

  /** So from the second call on, an XDP ramp has passed a step. */
  lemma {:induction false} XdpPassed(calls: seq<Call>, n: nat)
    requires Ramping(true, calls) && n < |calls|
    ensures calls[n].after.doublings >= 1 && calls[n].before.xdp
    decreases n
  {
    assert Linked(true, calls, n);
    if n == 0 {
      XdpFirstStepPasses(calls[0].m);
    } else {
      XdpPassed(calls, n - 1);
      DoublingsKept(calls[n].before, calls[n].m);
      assert Linked(true, calls, n - 1);
    }
  }

  lemma DoublingsKept(c: Ctrl, m: Measurement)
    ensures Advance(c, m).0.doublings >= c.doublings && Advance(c, m).0.xdp == c.xdp
    ensures Advance(c, m).0.baseline == Floor(c.baseline, m.p50)
  {
  }

  /** An XDP bracket never reaches below the starting rate. */
  lemma XdpBracketAboveStart(calls: seq<Call>)
    requires Finished(true, calls) && calls[|calls| - 1].after.phase == Bisect
    ensures var c := calls[|calls| - 1].after; c.lo >= START_QPS && c.hi - c.lo <= c.lo / 20
  {
    var n := |calls| - 1;
    RampEnds(true, calls);
    XdpPassed(calls, n);
    FinalBracketTight(calls[n].after, n);
  }

  // ---- What the verdicts were ---------------------------------------------------------

  /** The lowest positive p50 of the first `n` calls, 0 if there is none. */
  ghost function Lowest(calls: seq<Call>, n: nat): nat
    requires n <= |calls|
  {
    if n == 0 then 0
    else
      var l, p50 := Lowest(calls, n - 1), calls[n - 1].m.p50;
      if p50 == 0 then l else if l == 0 then p50 else Min(l, p50)
  }

  /** Call `n` met the latency objective of that moment and, in kernel mode, delivered 80 %
      of its target. */
  ghost predicate Sustained(xdp: bool, calls: seq<Call>, n: nat)
    requires n < |calls|
  {
    var b := Max(Lowest(calls, n + 1), 1);
    && calls[n].m.p50 <= Max(3 * b, b + 1000)
    && (xdp || 5 * calls[n].m.achieved + 4 >= 4 * calls[n].before.current)
  }

  lemma {:induction false} FloorIsLowest(xdp: bool, calls: seq<Call>, n: nat)
    requires Ramping(xdp, calls) && n < |calls|
    ensures calls[n].after.baseline == Floor(calls[n].before.baseline, calls[n].m.p50) == Lowest(calls, n + 1)
    ensures calls[n].before.xdp == xdp
    decreases n
  {
    assert Linked(xdp, calls, n);
    DoublingsKept(calls[n].before, calls[n].m);
    if n > 0 {
      FloorIsLowest(xdp, calls, n - 1);
      DoublingsKept(calls[n - 1].before, calls[n - 1].m);
      assert Linked(xdp, calls, n - 1);
    }
  }

  /** That is the verdict, in every ramp of either mode. */
  lemma VerdictIs(xdp: bool, calls: seq<Call>, n: nat)
    requires Ramping(xdp, calls) && n < |calls|
    ensures Ok(calls[n].before, calls[n].m) <==> Sustained(xdp, calls, n)
  {
    FloorIsLowest(xdp, calls, n);
  }

  /** The highest target passed so far. */
  ghost function Passed(c: Ctrl): nat {
    if c.phase == Exp then c.lastStable else c.lo
  }

  lemma {:induction false} WitnessAt(xdp: bool, calls: seq<Call>, n: nat) returns (i: nat, j: nat)
    requires Ramping(xdp, calls) && n < |calls|
    ensures i <= n && j <= n
    ensures var c := calls[n].after;
      && (Passed(c) > 0 ==> calls[i].before.current == Passed(c) && Sustained(xdp, calls, i))
      && (c.phase == Bisect ==> calls[j].before.current == c.hi && !Sustained(xdp, calls, j))
    decreases n
  {
    i, j := n, n;
    assert Linked(xdp, calls, n);
    VerdictIs(xdp, calls, n);
    if n > 0 {
      var i0, j0 := WitnessAt(xdp, calls, n - 1);
      if Ok(calls[n].before, calls[n].m) { j := j0; } else { i := i0; }
    }
  }

  /** Without any assumption on the measurements, in both modes: the bracket a ramp ends with
      is one it has seen. `lo` was sustained, unless nothing was, and `hi` was not; or all 20
      doublings were sustained. */
  lemma BracketWitnessed(xdp: bool, calls: seq<Call>) returns (i: nat, j: nat)
    requires Finished(xdp, calls)
    ensures i < |calls| && j < |calls|
    ensures var c := calls[|calls| - 1].after;
      if c.phase == Exp then calls[i].before.current == Target(19) && Sustained(xdp, calls, i)
      else
        && calls[j].before.current == c.hi && !Sustained(xdp, calls, j)
        && (c.lo > 0 ==> calls[i].before.current == c.lo && Sustained(xdp, calls, i))
  {
    i, j := WitnessAt(xdp, calls, |calls| - 1);
    RampEnds(xdp, calls);
    TargetFacts(19);
  }

  // ---- The bracket straddles the boundary --------------------------------------------

  /** Every verdict of the ramp is that of `sustained` on the target it tested. */
  ghost predicate Agrees(calls: seq<Call>, sustained: nat -> bool) {
    forall i :: 0 <= i < |calls| ==> Ok(calls[i].before, calls[i].m) == sustained(calls[i].before.current)
  }

  ghost predicate Straddles(c: Ctrl, sustained: nat -> bool) {
    match c.phase
    case Exp => c.lastStable == 0 || sustained(c.lastStable)
    case Bisect => (c.lo == 0 || sustained(c.lo)) && !sustained(c.hi)
  }

  lemma StraddlesStep(c: Ctrl, m: Measurement, sustained: nat -> bool)
    requires Straddles(c, sustained) && Ok(c, m) == sustained(c.current)
    ensures Straddles(Advance(c, m).0, sustained)
  {
  }

  lemma {:induction false} StraddlesAfter(xdp: bool, calls: seq<Call>, sustained: nat -> bool, n: nat)
    requires Ramping(xdp, calls) && Agrees(calls, sustained) && n < |calls|
    ensures Straddles(calls[n].after, sustained)
    decreases n
  {
    assert Linked(xdp, calls, n);
    if n > 0 {
      StraddlesAfter(xdp, calls, sustained, n - 1);
    }
    StraddlesStep(calls[n].before, calls[n].m, sustained);
  }

  ghost predicate DownwardClosed(sustained: nat -> bool) {
    forall a: nat, b: nat :: a <= b && sustained(b) ==> sustained(a)
  }

  /** In both modes: if the verdict is a property of the target that only ever fails
      upwards, every target up to `lo` is sustained and none from `hi` on is. */
  lemma BracketStraddlesBoundary(xdp: bool, calls: seq<Call>, sustained: nat -> bool, t: nat)
    requires DownwardClosed(sustained) && Agrees(calls, sustained)
    requires Finished(xdp, calls)
    ensures var c := calls[|calls| - 1].after;
      if c.phase == Exp then t <= Target(19) ==> sustained(t)
      else (c.lo > 0 && t <= c.lo ==> sustained(t)) && (t >= c.hi ==> !sustained(t))
  {
    StraddlesAfter(xdp, calls, sustained, |calls| - 1);
    RampEnds(xdp, calls);
    TargetFacts(19);
  }

  // ---- The knee ------------------------------------------------------------------------

  /** A positive nondecreasing latency curve. */
  ghost predicate Latency(f: nat -> nat) {
    f(0) > 0 && forall a: nat, b: nat :: a <= b ==> f(a) <= f(b)
  }

  /** Each measurement's p50 is `f` of the target it was taken at. */
  ghost predicate MeasuredBy(calls: seq<Call>, f: nat -> nat) {
    forall i :: 0 <= i < |calls| ==> calls[i].m.p50 == f(calls[i].before.current)
  }

  lemma AboveStart(calls: seq<Call>, n: nat)
    requires Ramping(true, calls) && n < |calls|
    ensures calls[n].before.current >= START_QPS
  {
    ShapeAt(true, calls, n);
    assert Linked(true, calls, n);
    if n > 0 {
      XdpPassed(calls, n - 1);
    }
    var k := calls[n].before.doublings;
    TargetFacts(k);
    TargetFacts(SatSub(k, 1));
  }

  /** The floor settles on the p50 of the starting rate, because no later target is
      lower. */
  lemma {:induction false} FloorSettles(calls: seq<Call>, f: nat -> nat, n: nat)
    requires Latency(f) && Ramping(true, calls) && MeasuredBy(calls, f) && n < |calls|
    ensures calls[n].after.baseline == Floor(calls[n].before.baseline, calls[n].m.p50) == f(START_QPS)
    decreases n
  {
    AboveStart(calls, n);
    assert Linked(true, calls, n);
    assert f(0) <= f(START_QPS) <= f(calls[n].before.current);
    DoublingsKept(calls[n].before, calls[n].m);
    if n > 0 {
      FloorSettles(calls, f, n - 1);
    }
  }

  /** So every verdict of the ramp is that of one fixed SLO. */
  lemma KneeVerdict(calls: seq<Call>, f: nat -> nat, n: nat)
    requires Latency(f) && Ramping(true, calls) && MeasuredBy(calls, f) && n < |calls|
    ensures Ok(calls[n].before, calls[n].m) ==
      (f(calls[n].before.current) <= Max(3 * f(START_QPS), f(START_QPS) + 1000))
  {
    FloorSettles(calls, f, n);
    XdpPassed(calls, n);
    assert f(0) <= f(START_QPS);
  }

  ghost function Within(f: nat -> nat, slo: nat): nat -> bool {
    (t: nat) => f(t) <= slo
  }

  lemma KneeAgrees(calls: seq<Call>, f: nat -> nat)
    requires Latency(f) && Ramping(true, calls) && MeasuredBy(calls, f)
    ensures Agrees(calls, Within(f, Max(3 * f(START_QPS), f(START_QPS) + 1000)))
  {
    forall i | 0 <= i < |calls|
      ensures Ok(calls[i].before, calls[i].m) ==
        Within(f, Max(3 * f(START_QPS), f(START_QPS) + 1000))(calls[i].before.current)
    {
      KneeVerdict(calls, f, i);
    }
  }

  /** Knee theorem. If p50 is any positive nondecreasing function `f` of the target,
      the XDP ramp ends either with all 20 doublings within the SLO, or with a
      bracket whose ends are on either side of T = max(3 f(start), f(start) + 1000)
      and at most 5 % of `lo` apart. */
  lemma Knee(calls: seq<Call>, f: nat -> nat)
    requires Latency(f) && Finished(true, calls) && MeasuredBy(calls, f)
    ensures var c := calls[|calls| - 1].after; var slo := Max(3 * f(START_QPS), f(START_QPS) + 1000);
      if c.phase == Exp then |calls| == 20 && f(Target(19)) <= slo
      else f(c.lo) <= slo < f(c.hi) && c.hi - c.lo <= c.lo / 20
  {
    KneeAgrees(calls, f);
    StraddlesAfter(true, calls, Within(f, Max(3 * f(START_QPS), f(START_QPS) + 1000)), |calls| - 1);
    RampEnds(true, calls);
    assert Target(19) > 0 by { TargetFacts(19); }
    if calls[|calls| - 1].after.phase == Bisect {
      XdpBracketAboveStart(calls);
    }
  }

  // ---- The ceiling of the kernel mode ------------------------------------------------------

  /** Each measurement's throughput is `g` of the target, and its p50 stays where the gate
      pins it: from some `b` up to the SLO of that `b`, or 0 for want of samples. */
  ghost predicate ServedBy(calls: seq<Call>, g: nat -> nat, b: nat) {
    b > 0 && forall i :: 0 <= i < |calls| ==>
      && calls[i].m.achieved == g(calls[i].before.current)
      && (calls[i].m.p50 == 0 || b <= calls[i].m.p50 <= Threshold(b))
  }

  /** `g` delivers 80 % of the target. */
  ghost function Delivered(g: nat -> nat): nat -> bool {
    (t: nat) => g(t) >= 4 * t / 5
  }

  /** The floor is then never below `b`, so the latency never fails a step. */
  lemma {:induction false} FloorPinned(calls: seq<Call>, g: nat -> nat, b: nat, n: nat)
    requires Ramping(false, calls) && ServedBy(calls, g, b) && n < |calls|
    ensures !calls[n].before.xdp && (calls[n].before.baseline == 0 || calls[n].before.baseline >= b)
    ensures Ok(calls[n].before, calls[n].m) == Delivered(g)(calls[n].before.current)
    decreases n
  {
    assert Linked(false, calls, n);
    if n > 0 {
      FloorPinned(calls, g, b, n - 1);
      assert Linked(false, calls, n - 1);
      DoublingsKept(calls[n - 1].before, calls[n - 1].m);
    }
    SloFollowsFloor(b, Max(b, Floor(calls[n].before.baseline, calls[n].m.p50)));
  }

  lemma KernelAgrees(calls: seq<Call>, g: nat -> nat, b: nat)
    requires Ramping(false, calls) && ServedBy(calls, g, b)
    ensures Agrees(calls, Delivered(g))
  {
    forall i | 0 <= i < |calls| ensures Ok(calls[i].before, calls[i].m) == Delivered(g)(calls[i].before.current) {
      FloorPinned(calls, g, b, i);
    }
  }

  /** The kernel-mode counterpart of the knee: for any throughput curve `g` the ramp ends
      with 80 % of all 20 doublings delivered, or with a tight bracket and 80 % delivered at
      `lo` and not at `hi`. */
  lemma KernelKnee(calls: seq<Call>, g: nat -> nat, b: nat)
    requires Finished(false, calls) && ServedBy(calls, g, b)
    ensures var c := calls[|calls| - 1].after;
      if c.phase == Exp then |calls| == 20 && g(Target(19)) >= 4 * Target(19) / 5
      else
        && g(c.lo) >= 4 * c.lo / 5 && g(c.hi) < 4 * c.hi / 5
        && c.lo < c.hi && c.hi - c.lo <= (if c.doublings > 0 then c.lo / 20 else 3125)
  {
    var c := calls[|calls| - 1].after;
    KernelAgrees(calls, g, b);
    StraddlesAfter(false, calls, Delivered(g), |calls| - 1);
    RampEnds(false, calls);
    if c.phase == Exp {
      TargetFacts(19);
    } else {
      FinalBracketTight(c, |calls| - 1);
    }
  }

  /** If the curve only ever fails upwards, every target up to `lo` is delivered and none from
      `hi` on is. */
  lemma KernelBoundary(calls: seq<Call>, g: nat -> nat, b: nat, t: nat)
    requires Finished(false, calls) && ServedBy(calls, g, b) && DownwardClosed(Delivered(g))
    ensures var c := calls[|calls| - 1].after;
      if c.phase == Exp then t <= Target(19) ==> g(t) >= 4 * t / 5
      else (0 < t <= c.lo ==> g(t) >= 4 * t / 5) && (t >= c.hi ==> g(t) < 4 * t / 5)
  {
    KernelAgrees(calls, g, b);
    BracketStraddlesBoundary(false, calls, Delivered(g), t);
    assert Delivered(g)(t) == (g(t) >= 4 * t / 5);
  }

  /** A server that serves what it is offered up to `ceiling`: 80 % of the bracket straddles
      the ceiling, so once a step has passed `lo` ends above it, by 19 to 25 %. */
  lemma CeilingBracketed(calls: seq<Call>, g: nat -> nat, b: nat, ceiling: nat)
    requires Finished(false, calls) && ServedBy(calls, g, b) && forall t: nat :: g(t) == Min(t, ceiling)
    ensures var c := calls[|calls| - 1].after;
      if c.phase == Exp then 4 * Target(19) / 5 <= ceiling
      else
        && 4 * c.lo / 5 <= ceiling < 4 * c.hi / 5
        && (c.doublings > 0 ==> 119 * ceiling < 100 * c.lo <= 125 * ceiling + 100)
  {
    KernelKnee(calls, g, b);
  }

  /** The engine's ramp loop (src/engine/mod.rs) on an arbitrary, even adversarial,
      source of measurements: it terminates, and what it leaves behind is a finished
      ramp. `measure(i, target)` is what step `i` observes at that target. */
  method RunRamp(xdp: bool, measure: (nat, nat) -> Measurement) returns (ctrl: RampController, ghost calls: seq<Call>)
    ensures fresh(ctrl) && Finished(xdp, calls) && ctrl.View() == calls[|calls| - 1].after
    ensures forall i :: 0 <= i < |calls| ==> calls[i].m == measure(i, calls[i].before.current)
  {
    ctrl := new RampController(xdp);
    calls := [];
    var steps, saturated := 0, false;
    while !saturated
      invariant fresh(ctrl) && ctrl.Valid() && steps == |calls| <= 25 && Ramping(xdp, calls)
      invariant ctrl.View() == if calls == [] then New(xdp) else calls[|calls| - 1].after
      invariant saturated <==> calls != [] && calls[|calls| - 1].out.saturated
      invariant forall i :: 0 <= i < |calls| ==> calls[i].m == measure(i, calls[i].before.current)
      decreases 25 - |calls|, !saturated
    {
      ghost var before := ctrl.View();
      var m := measure(steps, ctrl.current);
      var target, done, max := ctrl.Step(m.achieved, m.p50);
      ghost var call := Call(before, m, ctrl.View(), Outcome(target, done, max));
      forall i | 0 <= i < |calls| + 1 ensures Linked(xdp, calls + [call], i) {
        assert i < |calls| ==> Linked(xdp, calls, i);
      }
      calls := calls + [call];
      saturated, steps := done, steps + 1;
      RampEnds(xdp, calls);
    }
  }
}
