/** Loss accounting of the closed UDP loop (src/transport/udp.rs) through the shared
    counters (src/stats/mod.rs). Every access to the counters is one step, including each
    store of `reset_window`, and any interleaving of the workers' steps is a run. */
module Accounting {
  import opened Machine
  import opened SlotTable

  // The counters, in the order in which `reset_window` stores them.
  const SENT: nat := 0
  const COMPLETED: nat := 1
  const TIMEOUTS: nat := 2
  const ERRORS: nat := 3
  const NOERROR: nat := 4
  const NXDOMAIN: nat := 5
  const SERVFAIL: nat := 6
  const REFUSED: nat := 7
  const OTHER: nat := 8
  const COUNTERS: nat := 9

  /** What a worker has done to its own table and not yet, or only partly, to the counters. */
  datatype Hand =
    | Idle
    | Booked
    | Matched(rcode: nat, sample: Option<nat>)
    | Replied(rcode: nat, sample: Option<nat>)
    | Binned(rttUs: nat)
    | Sweeping(freed: nat, reported: nat)

  datatype Member = Member(outstanding: nat, hand: Hand)

  /** `erased` is what the resets have discarded, `stage` the next store of a reset. */
  datatype Fleet = Fleet(counters: seq<nat>, erased: seq<nat>, samples: multiset<nat>, stage: nat, workers: seq<Member>)

  datatype Event =
    | Book(w: nat)
    | CountSent(w: nat)
    | Match(w: nat, rcode: nat, sample: Option<nat>)
    | CountReply(w: nat)
    | CountRcode(w: nat)
    | RecordSample(w: nat)
    | Sweep(w: nat, n: nat)
    | CountTimeout(w: nat)
    | Lower(w: nat)
    | CountError(w: nat)
    | ResetNext

  function Zeros(): seq<nat> {
    seq(COUNTERS, _ => 0)
  }

  function Start(n: nat): Fleet {
    Fleet(Zeros(), Zeros(), multiset{}, 0, seq(n, _ => Member(0, Idle)))
  }

  /** The counter of an rcode. */
  function Bin(rcode: nat): (b: nat)
    ensures NOERROR <= b < COUNTERS
  {
    match rcode
    case 0 => NOERROR
    case 3 => NXDOMAIN
    case 2 => SERVFAIL
    case 5 => REFUSED
    case _ => OTHER
  }

  predicate Wellformed(s: Fleet) {
    |s.counters| == |s.erased| == COUNTERS && s.stage <= COUNTERS
  }

  predicate Enabled(s: Fleet, e: Event) {
    match e
    case Book(w) => w < |s.workers| && s.workers[w].hand.Idle?
    case CountSent(w) => w < |s.workers| && s.workers[w].hand.Booked?
    case Match(w, _, _) => w < |s.workers| && s.workers[w].hand.Idle? && s.workers[w].outstanding >= 1
    case CountReply(w) => w < |s.workers| && s.workers[w].hand.Matched?
    case CountRcode(w) => w < |s.workers| && s.workers[w].hand.Replied?
    case RecordSample(w) => w < |s.workers| && s.workers[w].hand.Binned?
    case Sweep(w, n) => w < |s.workers| && s.workers[w].hand.Idle? && n <= s.workers[w].outstanding
    case CountTimeout(w) =>
      w < |s.workers| && s.workers[w].hand.Sweeping? && s.workers[w].hand.reported < s.workers[w].hand.freed
    case Lower(w) =>
      w < |s.workers| && s.workers[w].hand.Sweeping? && s.workers[w].hand.reported == s.workers[w].hand.freed
    case CountError(w) => w < |s.workers| && s.workers[w].hand.Idle?
    case ResetNext => true
  }

  /** `fetch_add(1)` on counter `i`. */
  function Bumped(s: Fleet, i: nat): Fleet
    requires Wellformed(s) && i < COUNTERS
  {
    s.(counters := s.counters[i := s.counters[i] + 1])
  }

  function With(s: Fleet, w: nat, outstanding: nat, hand: Hand): Fleet
    requires w < |s.workers|
  {
    s.(workers := s.workers[w := Member(outstanding, hand)])
  }

  function Apply(s: Fleet, e: Event): Fleet
    requires Wellformed(s) && Enabled(s, e)
  {
    if e.ResetNext? then
      if s.stage < COUNTERS then
        s.(counters := s.counters[s.stage := 0], stage := s.stage + 1,
           erased := s.erased[s.stage := s.erased[s.stage] + s.counters[s.stage]])
      else
        s.(samples := multiset{}, stage := 0)
    else
      var out, hand := s.workers[e.w].outstanding, s.workers[e.w].hand;
      match e
      case Book(w) => With(s, w, out + 1, Booked)
      case CountSent(w) => With(Bumped(s, SENT), w, out, Idle)
      case Match(w, rcode, sample) => With(s, w, out - 1, Matched(rcode, sample))
      case CountReply(w) => With(Bumped(s, COMPLETED), w, out, Replied(hand.rcode, hand.sample))
      case CountRcode(w) =>
        With(Bumped(s, Bin(hand.rcode)), w, out, if hand.sample.Some? then Binned(hand.sample.value) else Idle)
      case RecordSample(w) => With(s, w, out, Idle).(samples := s.samples + multiset{Max(hand.rttUs, 1)})
      case Sweep(w, n) => With(s, w, out, Sweeping(n, 0))
      case CountTimeout(w) => With(Bumped(s, TIMEOUTS), w, out, hand.(reported := hand.reported + 1))
      case Lower(w) => With(s, w, SatSub(out, hand.freed), Idle)
      case CountError(w) => Bumped(s, ERRORS)
  }

  ghost predicate Runnable(s: Fleet, es: seq<Event>)
    decreases |es|
  {
    Wellformed(s) && (es == [] || (Enabled(s, es[0]) && Runnable(Apply(s, es[0]), es[1..])))
  }

  ghost function Exec(s: Fleet, es: seq<Event>): (t: Fleet)
    requires Runnable(s, es)
    ensures Wellformed(t)
    decreases |es|
  {
    if es == [] then s else Exec(Apply(s, es[0]), es[1..])
  }

  /** `es` lead from `s` to `t`. */
  ghost predicate Leads(s: Fleet, es: seq<Event>, t: Fleet) {
    Runnable(s, es) && Exec(s, es) == t
  }

  lemma OneStep(s: Fleet, e: Event)
    requires Wellformed(s) && Enabled(s, e) && Wellformed(Apply(s, e))
    ensures Leads(s, [e], Apply(s, e))
  {
    assert [e][1..] == [];
  }

  lemma {:induction false} Then(s: Fleet, xs: seq<Event>, t: Fleet, ys: seq<Event>, u: Fleet)
    requires Leads(s, xs, t) && Leads(t, ys, u)
    ensures Leads(s, xs + ys, u)
    decreases |xs|
  {
    if xs == [] {
      assert xs + ys == ys;
    } else {
      Then(Apply(s, xs[0]), xs[1..], t, ys, u);
      assert (xs + ys)[1..] == xs[1..] + ys;
    }
  }

  lemma AndThen(s: Fleet, xs: seq<Event>, t: Fleet, e: Event)
    requires Leads(s, xs, t) && Enabled(t, e) && Wellformed(Apply(t, e))
    ensures Leads(s, xs + [e], Apply(t, e))
  {
    OneStep(t, e);
    Then(s, xs, t, [e], Apply(t, e));
  }

  // ---- What every interleaving keeps ------------------------------------------------

  /** Queries the worker has counted as sent and neither as completed nor as timed out. */
  ghost function Pending(w: Member): nat {
    match w.hand
    case Booked => SatSub(w.outstanding, 1)
    case Matched(_, _) => w.outstanding + 1
    case Sweeping(_, reported) => SatSub(w.outstanding, reported)
    case _ => w.outstanding
  }

  /** Completions the worker has counted and not yet binned by rcode. */
  ghost function Unbinned(w: Member): nat {
    if w.hand.Replied? then 1 else 0
  }

  ghost function Pendings(ws: seq<Member>): seq<nat> {
    seq(|ws|, i requires 0 <= i < |ws| => Pending(ws[i]))
  }

  ghost function Unbinneds(ws: seq<Member>): seq<nat> {
    seq(|ws|, i requires 0 <= i < |ws| => Unbinned(ws[i]))
  }

  predicate SaneWorker(w: Member) {
    match w.hand
    case Booked => w.outstanding >= 1
    case Sweeping(freed, reported) => reported <= freed <= w.outstanding
    case _ => true
  }

  predicate Sane(s: Fleet) {
    forall i :: 0 <= i < |s.workers| ==> SaneWorker(s.workers[i])
  }

  /** All rcode counters together. */
  function Bins(c: seq<nat>): nat
    requires |c| == COUNTERS
  {
    c[NOERROR] + c[NXDOMAIN] + c[SERVFAIL] + c[REFUSED] + c[OTHER]
  }

  /** Over the whole run, resets or not, every query counted as sent was counted as
      completed, counted as timed out, or is pending, and every completion was binned or
      is about to be. */
  ghost predicate Balanced(s: Fleet) {
    && Wellformed(s) && Sane(s)
    && s.counters[SENT] + s.erased[SENT] ==
         s.counters[COMPLETED] + s.erased[COMPLETED] + s.counters[TIMEOUTS] + s.erased[TIMEOUTS] + Sum(Pendings(s.workers))
    && s.counters[COMPLETED] + s.erased[COMPLETED] == Bins(s.counters) + Bins(s.erased) + Sum(Unbinneds(s.workers))
  }

  lemma WorkerMoved(ws: seq<Member>, w: nat, x: Member)
    requires w < |ws|
    ensures Sum(Pendings(ws[w := x])) == Sum(Pendings(ws)) - Pending(ws[w]) + Pending(x)
    ensures Sum(Unbinneds(ws[w := x])) == Sum(Unbinneds(ws)) - Unbinned(ws[w]) + Unbinned(x)
  {
    assert Pendings(ws[w := x]) == Pendings(ws)[w := Pending(x)];
    assert Unbinneds(ws[w := x]) == Unbinneds(ws)[w := Unbinned(x)];
    SumUpdate(Pendings(ws), w, Pending(x));
    SumUpdate(Unbinneds(ws), w, Unbinned(x));
  }

  /** A step touches its own worker only. */
  lemma Locality(s: Fleet, e: Event)
    requires Wellformed(s) && Enabled(s, e) && !e.ResetNext?
    ensures var t := Apply(s, e);
      && Wellformed(t) && t.workers == s.workers[e.w := t.workers[e.w]] && t.erased == s.erased && t.stage == s.stage
      && Sum(Pendings(t.workers)) == Sum(Pendings(s.workers)) - Pending(s.workers[e.w]) + Pending(t.workers[e.w])
      && Sum(Unbinneds(t.workers)) == Sum(Unbinneds(s.workers)) - Unbinned(s.workers[e.w]) + Unbinned(t.workers[e.w])
      && (Sane(s) ==> Sane(t))
  {
    var t := Apply(s, e);
    WorkerMoved(s.workers, e.w, t.workers[e.w]);
    if Sane(s) {
      assert SaneWorker(s.workers[e.w]);
      assert SaneWorker(t.workers[e.w]);
    }
  }

  predicate OfReply(e: Event) {
    e.Match? || e.CountReply? || e.CountRcode? || e.RecordSample?
  }

  lemma BalancedByReply(s: Fleet, e: Event)
    requires Balanced(s) && Enabled(s, e) && OfReply(e)
    ensures Balanced(Apply(s, e))
  {
    Locality(s, e);
  }

  lemma BalancedByOthers(s: Fleet, e: Event)
    requires Balanced(s) && Enabled(s, e) && !OfReply(e) && !e.ResetNext?
    ensures Balanced(Apply(s, e))
  {
    Locality(s, e);
    assert SaneWorker(s.workers[e.w]);
  }

  lemma BalancedStep(s: Fleet, e: Event)
    requires Balanced(s) && Enabled(s, e)
    ensures Balanced(Apply(s, e))
  {
    if OfReply(e) {
      BalancedByReply(s, e);
    } else if !e.ResetNext? {
      BalancedByOthers(s, e);
    }
  }

  lemma {:induction false} BalancedRun(s: Fleet, es: seq<Event>, t: Fleet)
    requires Balanced(s) && Leads(s, es, t)
    ensures Balanced(t)
    decreases |es|
  {
    if es != [] {
      BalancedStep(s, es[0]);
      BalancedRun(Apply(s, es[0]), es[1..], t);
    }
  }

  lemma StartBalanced(n: nat)
    ensures Balanced(Start(n))
  {
    ZeroSum(Pendings(Start(n).workers));
    ZeroSum(Unbinneds(Start(n).workers));
  }

  // ---- The counters of a window --------------------------------------------------------

  /** What the resets took from the sent side and not from the other. */
  ghost function Carry(s: Fleet): int
    requires Wellformed(s)
  {
    s.erased[SENT] as int - s.erased[COMPLETED] as int - s.erased[TIMEOUTS] as int
  }

  /** What the resets took from the completions and not from their bins. */
  ghost function Skew(s: Fleet): int
    requires Wellformed(s)
  {
    s.erased[COMPLETED] - Bins(s.erased)
  }

  /** The loss figure of a snapshot. */
  function Lost(s: Fleet): nat
    requires Wellformed(s)
  {
    SatSub(s.counters[SENT], s.counters[COMPLETED])
  }

  /** Loss accounting in every interleaving of any number of workers, with resets anywhere:
      what the counters and the queries still out add up to, and that the loss figure
      accounts for every query of the window exactly if the timeouts and the pending
      queries make up for the carry. */
  lemma LossAccounting(n: nat, es: seq<Event>, t: Fleet)
    requires Leads(Start(n), es, t)
    ensures var pending := Sum(Pendings(t.workers));
      && t.counters[SENT] + Carry(t) == t.counters[COMPLETED] + t.counters[TIMEOUTS] + pending
      && t.counters[COMPLETED] + Skew(t) == Bins(t.counters) + Sum(Unbinneds(t.workers))
      && (t.counters[SENT] == t.counters[COMPLETED] + Lost(t) <==> Carry(t) <= t.counters[TIMEOUTS] + pending)
      && (Carry(t) <= t.counters[TIMEOUTS] + pending ==> Lost(t) == t.counters[TIMEOUTS] + pending - Carry(t))
  {
    StartBalanced(n);
    BalancedRun(Start(n), es, t);
  }

  /** Between batches the pending queries are the outstanding ones, and every completion
      is in a bin. */
  predicate AllIdle(s: Fleet) {
    forall i :: 0 <= i < |s.workers| ==> s.workers[i].hand.Idle?
  }

  function Outstandings(ws: seq<Member>): seq<nat> {
    seq(|ws|, i requires 0 <= i < |ws| => ws[i].outstanding)
  }

  lemma IdleSums(s: Fleet)
    requires AllIdle(s)
    ensures Sum(Pendings(s.workers)) == Sum(Outstandings(s.workers)) && Sum(Unbinneds(s.workers)) == 0
  {
    assert Pendings(s.workers) == Outstandings(s.workers);
    ZeroSum(Unbinneds(s.workers));
  }

  predicate NoReset(es: seq<Event>) {
    forall i :: 0 <= i < |es| ==> !es[i].ResetNext?
  }

  lemma {:induction false} ErasedKept(s: Fleet, es: seq<Event>, t: Fleet)
    requires Leads(s, es, t) && NoReset(es)
    ensures t.erased == s.erased && t.stage == s.stage
    decreases |es|
  {
    if es != [] {
      assert !es[0].ResetNext?;
      ErasedKept(Apply(s, es[0]), es[1..], t);
    }
  }

  /** Without a reset the documented identity always holds; once the workers are between
      batches the losses are the timeouts and the queries still out, and the rcodes add up. */
  lemma NoResetNoDrift(n: nat, es: seq<Event>, t: Fleet)
    requires Leads(Start(n), es, t) && NoReset(es)
    ensures t.counters[SENT] == t.counters[COMPLETED] + Lost(t)
    ensures Lost(t) == t.counters[TIMEOUTS] + Sum(Pendings(t.workers))
    ensures AllIdle(t) ==> Lost(t) == t.counters[TIMEOUTS] + Sum(Outstandings(t.workers))
    ensures AllIdle(t) ==> t.counters[COMPLETED] == Bins(t.counters)
  {
    LossAccounting(n, es, t);
    ErasedKept(Start(n), es, t);
    if AllIdle(t) { IdleSums(t); }
  }

  // ---- A reset that nothing interrupts ---------------------------------------------------

  /** What the rest of a reset leaves: the counters not yet stored are cleared, and what
      they held is added to `erased`. */
  ghost function Cleared(s: Fleet): Fleet
    requires Wellformed(s)
  {
    s.(counters := seq(COUNTERS, i requires 0 <= i < COUNTERS => if i < s.stage then s.counters[i] else 0),
       erased := seq(COUNTERS, i requires 0 <= i < COUNTERS => s.erased[i] + if i < s.stage then 0 else s.counters[i]),
       samples := multiset{}, stage := 0)
  }

  /** What is left of a reset, nothing in between; all of it if none is under way. */
  function ResetSteps(s: Fleet): seq<Event>
    requires Wellformed(s)
  {
    seq(COUNTERS + 1 - s.stage, _ => ResetNext)
  }

  lemma {:induction false} ResetRun(s: Fleet)
    requires Wellformed(s)
    ensures Leads(s, ResetSteps(s), Cleared(s))
    decreases COUNTERS - s.stage
  {
    var t := Apply(s, ResetNext);
    var es := ResetSteps(s);
    if s.stage == COUNTERS {
      assert es == [ResetNext];
      assert t.counters == Cleared(s).counters && t.erased == Cleared(s).erased;
      OneStep(s, ResetNext);
    } else {
      ResetRun(t);
      assert es[1..] == ResetSteps(t);
      assert Cleared(t).counters == Cleared(s).counters && Cleared(t).erased == Cleared(s).erased;
    }
  }

  lemma WindowOpened(s: Fleet)
    requires Balanced(s) && s.stage == 0
    ensures Balanced(Cleared(s)) && Cleared(s).counters == Zeros()
    ensures Carry(Cleared(s)) == Sum(Pendings(s.workers)) && Skew(Cleared(s)) == Sum(Unbinneds(s.workers))
  {
  }

  /** It clears the counters and leaves the workers alone. The new window starts with the
      queries pending at that moment as its carry, and with the completions not yet binned
      as its skew. */
  lemma ResetWhole(s: Fleet, t: Fleet)
    requires Balanced(s) && s.stage == 0 && Leads(s, ResetSteps(s), t)
    ensures t.counters == Zeros() && t.samples == multiset{} && t.workers == s.workers && t.stage == 0
    ensures Balanced(t) && Carry(t) == Sum(Pendings(s.workers)) && Skew(t) == Sum(Unbinneds(s.workers))
  {
    ResetRun(s);
    WindowOpened(s);
  }

  /** A warm-up, an uninterrupted reset and the measured window, seen from the end of it
      with the workers between batches: the rcodes add up to the completions if and only if
      no worker was between the two counts at the reset, and the loss figure accounts for
      every query exactly if no more replies fell into the window than queries. */
  lemma WarmUp(n: nat, xs: seq<Event>, s: Fleet, r: Fleet, ys: seq<Event>, t: Fleet)
    requires Leads(Start(n), xs, s) && NoReset(xs)
    requires Leads(s, ResetSteps(s), r) && Leads(r, ys, t) && NoReset(ys) && AllIdle(t)
    ensures t.counters[SENT] + Sum(Pendings(s.workers)) ==
      t.counters[COMPLETED] + t.counters[TIMEOUTS] + Sum(Outstandings(t.workers))
    ensures t.counters[COMPLETED] + Sum(Unbinneds(s.workers)) == Bins(t.counters)
    ensures t.counters[COMPLETED] == Bins(t.counters) <==>
      forall i :: 0 <= i < |s.workers| ==> !s.workers[i].hand.Replied?
    ensures t.counters[SENT] == t.counters[COMPLETED] + Lost(t) <==>
      Sum(Pendings(s.workers)) <= t.counters[TIMEOUTS] + Sum(Outstandings(t.workers))
  {
    StartBalanced(n);
    BalancedRun(Start(n), xs, s);
    ErasedKept(Start(n), xs, s);
    ResetWhole(s, r);
    BalancedRun(r, ys, t);
    ErasedKept(r, ys, t);
    IdleSums(t);
    UnbinnedZeroIff(s.workers);
  }

  lemma {:induction false} ZeroSumIff(xs: seq<nat>)
    ensures Sum(xs) == 0 <==> forall i :: 0 <= i < |xs| ==> xs[i] == 0
    decreases |xs|
  {
    if xs != [] {
      ZeroSumIff(xs[..|xs| - 1]);
      if Sum(xs) == 0 {
        forall i | 0 <= i < |xs| ensures xs[i] == 0 {
          if i < |xs| - 1 { assert xs[..|xs| - 1][i] == xs[i]; }
        }
      } else if Sum(xs[..|xs| - 1]) != 0 {
        var i :| 0 <= i < |xs| - 1 && xs[..|xs| - 1][i] != 0;
        assert xs[i] != 0;
      }
    }
  }

  lemma UnbinnedZeroIff(ws: seq<Member>)
    ensures Sum(Unbinneds(ws)) == 0 <==> forall i :: 0 <= i < |ws| ==> !ws[i].hand.Replied?
  {
    ZeroSumIff(Unbinneds(ws));
    forall i | 0 <= i < |ws| ensures Unbinneds(ws)[i] == 0 <==> !ws[i].hand.Replied? {
    }
  }

  // ---- A reset that is interrupted ---------------------------------------------------------

  /** The stores to `sent`, `completed` and `timeouts` are three accesses. The carry is what
      was pending at the first, less what was completed or timed out before the store that
      discards it: a reply in between makes it smaller, possibly negative, and the loss
      figure larger. */
  lemma InterruptedReset(n: nat, xs: seq<Event>, s0: Fleet, ys: seq<Event>, s1: Fleet, zs: seq<Event>, s2: Fleet)
    requires Leads(Start(n), xs, s0) && NoReset(xs)
    requires Leads(Apply(s0, ResetNext), ys, s1) && NoReset(ys)
    requires Leads(Apply(s1, ResetNext), zs, s2) && NoReset(zs)
    ensures Carry(Apply(s2, ResetNext)) == Sum(Pendings(s0.workers)) - Rise(s0, s1, COMPLETED) - Rise(s0, s2, TIMEOUTS)
  {
    StartBalanced(n);
    BalancedRun(Start(n), xs, s0);
    ErasedKept(Start(n), xs, s0);
    ErasedKept(Apply(s0, ResetNext), ys, s1);
    ErasedKept(Apply(s1, ResetNext), zs, s2);
    CarryStored(s0, s1, s2);
  }

  ghost function Rise(s: Fleet, t: Fleet, i: nat): int
    requires Wellformed(s) && Wellformed(t) && i < COUNTERS
  {
    t.counters[i] as int - s.counters[i] as int
  }

  lemma CarryStored(s0: Fleet, s1: Fleet, s2: Fleet)
    requires Balanced(s0) && s0.stage == 0 && s0.erased == Zeros() && Wellformed(s1) && Wellformed(s2)
    requires s1.stage == 1 && s1.erased == Apply(s0, ResetNext).erased
    requires s2.stage == 2 && s2.erased == Apply(s1, ResetNext).erased
    ensures Carry(Apply(s2, ResetNext)) == Sum(Pendings(s0.workers)) - Rise(s0, s1, COMPLETED) - Rise(s0, s2, TIMEOUTS)
  {
  }

  // ---- What one worker does, as runs -----------------------------------------------------

  ghost predicate IdleAt(s: Fleet, w: nat) {
    Wellformed(s) && w < |s.workers| && s.workers[w].hand.Idle?
  }

  /** A query is booked and counted. */
  function SentBy(s: Fleet, w: nat): Fleet
    requires Wellformed(s) && w < |s.workers|
  {
    With(Bumped(s, SENT), w, s.workers[w].outstanding + 1, Idle)
  }

  /** A reply is matched and counted, and sampled unless late. */
  function AnsweredBy(s: Fleet, w: nat, rcode: nat, sample: Option<nat>): Fleet
    requires Wellformed(s) && w < |s.workers| && s.workers[w].outstanding >= 1
  {
    With(Bumped(Bumped(s, COMPLETED), Bin(rcode)), w, s.workers[w].outstanding - 1, Idle)
      .(samples := s.samples + match sample case None => multiset{} case Some(rttUs) => multiset{Max(rttUs, 1)})
  }

  /** `n` queries are timed out. */
  function SweptBy(s: Fleet, w: nat, n: nat): Fleet
    requires Wellformed(s) && w < |s.workers| && s.workers[w].outstanding >= n
  {
    With(s, w, s.workers[w].outstanding - n, Idle).(counters := s.counters[TIMEOUTS := s.counters[TIMEOUTS] + n])
  }

  lemma SendRun(s: Fleet, w: nat)
    requires IdleAt(s, w)
    ensures Leads(s, [Book(w)] + [CountSent(w)], SentBy(s, w))
  {
    OneStep(s, Book(w));
    AndThen(s, [Book(w)], Apply(s, Book(w)), CountSent(w));
    assert Apply(Apply(s, Book(w)), CountSent(w)) == SentBy(s, w);
  }

  function ReplyEvents(w: nat, rcode: nat, sample: Option<nat>): seq<Event> {
    [Match(w, rcode, sample)] + [CountReply(w)] + [CountRcode(w)] + if sample.Some? then [RecordSample(w)] else []
  }

  lemma ReplyRun(s: Fleet, w: nat, rcode: nat, sample: Option<nat>)
    requires IdleAt(s, w) && s.workers[w].outstanding >= 1
    ensures Leads(s, ReplyEvents(w, rcode, sample), AnsweredBy(s, w, rcode, sample))
  {
    var es := [Match(w, rcode, sample)] + [CountReply(w)] + [CountRcode(w)];
    var t := CountRun(s, w, rcode, sample);
    if sample.Some? {
      AndThen(s, es, t, RecordSample(w));
      assert Apply(t, RecordSample(w)).workers == AnsweredBy(s, w, rcode, sample).workers;
    } else {
      assert es + [] == es;
    }
  }

  /** All of it but the sample. */
  lemma CountRun(s: Fleet, w: nat, rcode: nat, sample: Option<nat>) returns (t: Fleet)
    requires IdleAt(s, w) && s.workers[w].outstanding >= 1
    ensures Leads(s, [Match(w, rcode, sample)] + [CountReply(w)] + [CountRcode(w)], t)
    ensures t == With(AnsweredBy(s, w, rcode, None), w, s.workers[w].outstanding - 1,
                      if sample.Some? then Binned(sample.value) else Idle)
  {
    var s1 := Apply(s, Match(w, rcode, sample));
    var s2 := Apply(s1, CountReply(w));
    t := Apply(s2, CountRcode(w));
    OneStep(s, Match(w, rcode, sample));
    AndThen(s, [Match(w, rcode, sample)], s1, CountReply(w));
    AndThen(s, [Match(w, rcode, sample)] + [CountReply(w)], s2, CountRcode(w));
    assert t.workers == s.workers[w := t.workers[w]];
  }

  /** The sweep under way, `k` timeouts reported. */
  ghost function SweepAt(s: Fleet, w: nat, n: nat, k: nat): Fleet
    requires Wellformed(s) && w < |s.workers|
  {
    With(s, w, s.workers[w].outstanding, Sweeping(n, k)).(counters := s.counters[TIMEOUTS := s.counters[TIMEOUTS] + k])
  }

  lemma {:induction false} ReportRun(s: Fleet, w: nat, n: nat, k: nat)
    requires IdleAt(s, w) && k <= n
    ensures Leads(SweepAt(s, w, n, 0), seq(k, _ => CountTimeout(w)), SweepAt(s, w, n, k))
  {
    var es := seq(k, _ => CountTimeout(w));
    if k > 0 {
      ReportRun(s, w, n, k - 1);
      AndThen(SweepAt(s, w, n, 0), seq(k - 1, _ => CountTimeout(w)), SweepAt(s, w, n, k - 1), CountTimeout(w));
      assert es == seq(k - 1, _ => CountTimeout(w)) + [CountTimeout(w)];
      assert Apply(SweepAt(s, w, n, k - 1), CountTimeout(w)) == SweepAt(s, w, n, k);
    }
  }

  function SweepEvents(w: nat, n: nat): seq<Event> {
    [Sweep(w, n)] + seq(n, _ => CountTimeout(w)) + [Lower(w)]
  }

  lemma SweepRun(s: Fleet, w: nat, n: nat)
    requires IdleAt(s, w) && s.workers[w].outstanding >= n
    ensures Leads(s, SweepEvents(w, n), SweptBy(s, w, n))
  {
    OneStep(s, Sweep(w, n));
    assert Apply(s, Sweep(w, n)).counters == SweepAt(s, w, n, 0).counters;
    ReportRun(s, w, n, n);
    var es := seq(n, _ => CountTimeout(w));
    Then(s, [Sweep(w, n)], SweepAt(s, w, n, 0), es, SweepAt(s, w, n, n));
    AndThen(s, [Sweep(w, n)] + es, SweepAt(s, w, n, n), Lower(w));
    assert Apply(SweepAt(s, w, n, n), Lower(w)).workers == SweptBy(s, w, n).workers;
  }

  // ---- Whether the loss identity survives a reset ---------------------------------------

  /** Replies the worker may still count without counting another query as sent. */
  ghost function Answerable(w: Member): nat {
    match w.hand
    case Booked => SatSub(w.outstanding, 1)
    case Matched(_, _) => w.outstanding + 1
    case Sweeping(freed, _) => SatSub(w.outstanding, freed)
    case _ => w.outstanding
  }

  ghost function Answerables(ws: seq<Member>): seq<nat> {
    seq(|ws|, i requires 0 <= i < |ws| => Answerable(ws[i]))
  }

  /** The sends of the window cover its completions and all that may still be counted. */
  ghost predicate Covered(s: Fleet) {
    Wellformed(s) && Sane(s) && s.counters[SENT] >= s.counters[COMPLETED] + Sum(Answerables(s.workers))
  }

  lemma CoveredStep(s: Fleet, e: Event)
    requires Covered(s) && Enabled(s, e) && !e.ResetNext?
    ensures Covered(Apply(s, e))
  {
    Locality(s, e);
    AnswerableMoved(s.workers, e.w, Apply(s, e).workers[e.w]);
    OwnCover(s, e);
  }

  lemma AnswerableMoved(ws: seq<Member>, w: nat, x: Member)
    requires w < |ws|
    ensures Sum(Answerables(ws[w := x])) == Sum(Answerables(ws)) - Answerable(ws[w]) + Answerable(x)
  {
    assert Answerables(ws[w := x]) == Answerables(ws)[w := Answerable(x)];
    SumUpdate(Answerables(ws), w, Answerable(x));
  }

  /** What a step counts as completed and makes answerable, it counts as sent or had. */
  lemma OwnCover(s: Fleet, e: Event)
    requires Wellformed(s) && Sane(s) && Enabled(s, e) && !e.ResetNext?
    ensures var t := Apply(s, e);
      t.counters[SENT] - s.counters[SENT] + Answerable(s.workers[e.w]) >=
        t.counters[COMPLETED] - s.counters[COMPLETED] + Answerable(t.workers[e.w])
  {
    assert SaneWorker(s.workers[e.w]);
  }

  lemma {:induction false} CoveredRun(s: Fleet, es: seq<Event>, t: Fleet)
    requires Covered(s) && Leads(s, es, t) && NoReset(es)
    ensures Covered(t)
    decreases |es|
  {
    if es != [] {
      assert !es[0].ResetNext?;
      CoveredStep(s, es[0]);
      CoveredRun(Apply(s, es[0]), es[1..], t);
    }
  }

  /** A run without resets after which worker `w` is between batches. It counts the send or
      the reply that was in hand, and nothing else on either side. */
  lemma Finishes(s: Fleet, w: nat) returns (es: seq<Event>, t: Fleet)
    requires Wellformed(s) && Sane(s) && w < |s.workers|
    ensures Leads(s, es, t) && NoReset(es) && IdleAt(t, w) && t.workers == s.workers[w := t.workers[w]]
    ensures t.counters[SENT] == s.counters[SENT] + if s.workers[w].hand.Booked? then 1 else 0
    ensures t.counters[COMPLETED] == s.counters[COMPLETED] + if s.workers[w].hand.Matched? then 1 else 0
    ensures t.workers[w].outstanding + (if s.workers[w].hand.Matched? then 1 else 0) ==
      Answerable(s.workers[w]) + if s.workers[w].hand.Booked? then 1 else 0
  {
    assert SaneWorker(s.workers[w]);
    match s.workers[w].hand
    case Idle =>
      es, t := [], s;
    case Booked =>
      OneStep(s, CountSent(w));
      es, t := [CountSent(w)], Apply(s, CountSent(w));
    case Matched(_, _) =>
      var u := Apply(s, CountReply(w));
      OneStep(s, CountReply(w));
      var rest;
      rest, t := BinsReply(u, w);
      Then(s, [CountReply(w)], u, rest, t);
      es := [CountReply(w)] + rest;
    case Replied(_, _) =>
      es, t := BinsReply(s, w);
    case Binned(_) =>
      OneStep(s, RecordSample(w));
      es, t := [RecordSample(w)], Apply(s, RecordSample(w));
    case Sweeping(_, _) =>
      es, t := SweepsOut(s, w);
  }

  /** A counted reply is binned, and sampled unless late. */
  lemma BinsReply(s: Fleet, w: nat) returns (es: seq<Event>, t: Fleet)
    requires Wellformed(s) && w < |s.workers| && s.workers[w].hand.Replied?
    ensures Leads(s, es, t) && NoReset(es) && IdleAt(t, w) && t.workers == s.workers[w := t.workers[w]]
    ensures t.counters[SENT] == s.counters[SENT] && t.counters[COMPLETED] == s.counters[COMPLETED]
    ensures t.workers[w].outstanding == s.workers[w].outstanding
  {
    t := Apply(s, CountRcode(w));
    OneStep(s, CountRcode(w));
    es := [CountRcode(w)];
    if t.workers[w].hand.Binned? {
      AndThen(s, es, t, RecordSample(w));
      es, t := es + [RecordSample(w)], Apply(t, RecordSample(w));
    }
  }

  /** The rest of a sweep. */
  lemma {:induction false} SweepsOut(s: Fleet, w: nat) returns (es: seq<Event>, t: Fleet)
    requires Wellformed(s) && w < |s.workers| && s.workers[w].hand.Sweeping? && SaneWorker(s.workers[w])
    ensures Leads(s, es, t) && NoReset(es) && IdleAt(t, w) && t.workers == s.workers[w := t.workers[w]]
    ensures t.counters[SENT] == s.counters[SENT] && t.counters[COMPLETED] == s.counters[COMPLETED]
    ensures t.workers[w].outstanding == s.workers[w].outstanding - s.workers[w].hand.freed
    decreases s.workers[w].hand.freed - s.workers[w].hand.reported
  {
    if s.workers[w].hand.reported == s.workers[w].hand.freed {
      OneStep(s, Lower(w));
      es, t := [Lower(w)], Apply(s, Lower(w));
    } else {
      var u := Apply(s, CountTimeout(w));
      OneStep(s, CountTimeout(w));
      var rest;
      rest, t := SweepsOut(u, w);
      Then(s, [CountTimeout(w)], u, rest, t);
      es := [CountTimeout(w)] + rest;
    }
  }

  /** All that an idle worker has out is answered. */
  lemma {:induction false} AnswersAll(s: Fleet, w: nat) returns (es: seq<Event>, t: Fleet)
    requires IdleAt(s, w)
    ensures Leads(s, es, t) && NoReset(es) && t.workers == s.workers[w := Member(0, Idle)]
    ensures t.counters[SENT] == s.counters[SENT]
    ensures t.counters[COMPLETED] == s.counters[COMPLETED] + s.workers[w].outstanding
    decreases s.workers[w].outstanding
  {
    if s.workers[w].outstanding == 0 {
      es, t := [], s;
    } else {
      var u := AnsweredBy(s, w, 0, None);
      ReplyRun(s, w, 0, None);
      var rest;
      rest, t := AnswersAll(u, w);
      Then(s, ReplyEvents(w, 0, None), u, rest, t);
      es := ReplyEvents(w, 0, None) + rest;
    }
  }

  /** One worker counts all it may: the completions gain on the sends by exactly that. */
  lemma Exhausts(s: Fleet, w: nat) returns (es: seq<Event>, t: Fleet)
    requires Wellformed(s) && Sane(s) && w < |s.workers|
    ensures Leads(s, es, t) && NoReset(es) && Sane(t)
    ensures |t.workers| == |s.workers| && Answerables(t.workers) == Answerables(s.workers)[w := 0]
    ensures t.counters[COMPLETED] + s.counters[SENT] ==
      s.counters[COMPLETED] + t.counters[SENT] + Answerable(s.workers[w])
  {
    var xs, u := Finishes(s, w);
    var ys;
    ys, t := AnswersAll(u, w);
    Then(s, xs, u, ys, t);
    es := xs + ys;
    assert t.workers == s.workers[w := Member(0, Idle)];
  }

  /** So do all of them, one after the other. */
  lemma {:induction false} ExhaustsAll(s: Fleet) returns (es: seq<Event>, t: Fleet)
    requires Wellformed(s) && Sane(s)
    ensures Leads(s, es, t) && NoReset(es)
    ensures t.counters[COMPLETED] + s.counters[SENT] ==
      s.counters[COMPLETED] + t.counters[SENT] + Sum(Answerables(s.workers))
    decreases Sum(Answerables(s.workers))
  {
    var xs := Answerables(s.workers);
    ZeroSumIff(xs);
    if Sum(xs) == 0 {
      es, t := [], s;
    } else {
      var w :| 0 <= w < |xs| && xs[w] != 0;
      var u;
      es, u := Exhausts(s, w);
      SumUpdate(xs, w, 0);
      var rest;
      rest, t := ExhaustsAll(u);
      Then(s, es, u, rest, t);
      es := es + rest;
    }
  }

  /** From `r` on, until the next reset, the loss figure accounts for every query of the
      window at every point. */
  ghost predicate IdentityHolds(r: Fleet) {
    forall ys, t :: Leads(r, ys, t) && NoReset(ys) ==> t.counters[SENT] == t.counters[COMPLETED] + Lost(t)
  }

  /** In any reachable state, whatever resets came before and however they were interrupted,
      that is decided there and then: by the two counters and by what is answerable. */
  lemma IdentityHoldsIff(n: nat, xs: seq<Event>, r: Fleet)
    requires Leads(Start(n), xs, r)
    ensures IdentityHolds(r) <==> r.counters[COMPLETED] + Sum(Answerables(r.workers)) <= r.counters[SENT]
  {
    StartBalanced(n);
    BalancedRun(Start(n), xs, r);
    if Covered(r) {
      forall ys, t | Leads(r, ys, t) && NoReset(ys) ensures t.counters[SENT] == t.counters[COMPLETED] + Lost(t) {
        CoveredRun(r, ys, t);
      }
    } else {
      var ys, t := ExhaustsAll(r);
      assert Leads(r, ys, t) && NoReset(ys);
    }
  }

  /** After an uninterrupted reset it holds exactly if no reply was answerable at the reset:
      nothing out with any worker, but for a query booked and not yet counted or swept and
      not yet lowered, and no reply in hand. */
  lemma IdentitySurvivesIff(n: nat, xs: seq<Event>, s: Fleet, r: Fleet)
    requires Leads(Start(n), xs, s) && s.stage == 0 && Leads(s, ResetSteps(s), r)
    ensures IdentityHolds(r) <==> forall i :: 0 <= i < |s.workers| ==> Answerable(s.workers[i]) == 0
  {
    StartBalanced(n);
    BalancedRun(Start(n), xs, s);
    ResetWhole(s, r);
    Then(Start(n), xs, s, ResetSteps(s), r);
    IdentityHoldsIff(n, xs + ResetSteps(s), r);
    ZeroSumIff(Answerables(s.workers));
    forall i | 0 <= i < |s.workers| ensures Answerables(s.workers)[i] == Answerable(s.workers[i]) {
    }
  }

  // ---- The log of a worker ------------------------------------------------------------

  ghost predicate Step(a: Fleet, e: Event, b: Fleet) {
    Wellformed(a) && Enabled(a, e) && Apply(a, e) == b && Wellformed(b)
  }

  /** `ss` are the states that the events of `log` pass through. */
  ghost predicate Trace(log: seq<Event>, ss: seq<Fleet>) {
    |ss| == |log| + 1 && forall i :: 0 <= i < |log| ==> Step(ss[i], log[i], ss[i + 1])
  }

  /** The events of `log`, none of them part of a reset, happened between `s` and `t`. */
  ghost predicate Recorded(s: Fleet, log: seq<Event>, t: Fleet) {
    Wellformed(s) && NoReset(log) && exists ss :: Trace(log, ss) && ss[0] == s && ss[|log|] == t
  }

  lemma {:induction false} TraceOf(s: Fleet, es: seq<Event>, t: Fleet) returns (ss: seq<Fleet>)
    requires Leads(s, es, t)
    ensures Trace(es, ss) && ss[0] == s && ss[|es|] == t
    decreases |es|
  {
    if es == [] {
      ss := [s];
    } else {
      var rest := TraceOf(Apply(s, es[0]), es[1..], t);
      ss := [s] + rest;
      forall i | 0 <= i < |es| ensures Step(ss[i], es[i], ss[i + 1]) {
        if i > 0 { assert es[1..][i - 1] == es[i]; }
      }
    }
  }

  lemma {:induction false} TraceLeads(log: seq<Event>, ss: seq<Fleet>)
    requires Trace(log, ss) && Wellformed(ss[0])
    ensures Leads(ss[0], log, ss[|log|])
    decreases |log|
  {
    if log != [] {
      assert Step(ss[0], log[0], ss[1]);
      forall i | 0 <= i < |log| - 1 ensures Step(ss[1..][i], log[1..][i], ss[1..][i + 1]) {
        assert Step(ss[i + 1], log[i + 1], ss[i + 2]);
      }
      TraceLeads(log[1..], ss[1..]);
    }
  }

  /** So a log from the start is a run without resets, and what is proved of those holds. */
  lemma RecordedLeads(s: Fleet, log: seq<Event>, t: Fleet)
    requires Recorded(s, log, t)
    ensures Leads(s, log, t) && NoReset(log)
  {
    var ss :| Trace(log, ss) && ss[0] == s && ss[|log|] == t;
    TraceLeads(log, ss);
  }

  lemma NothingRecorded(s: Fleet)
    requires Wellformed(s)
    ensures Recorded(s, [], s)
  {
    assert Trace([], [s]);
  }

  lemma RecordedMore(s: Fleet, log: seq<Event>, t: Fleet, es: seq<Event>, u: Fleet)
    requires Recorded(s, log, t) && Leads(t, es, u) && NoReset(es)
    ensures Recorded(s, log + es, u)
  {
    var ss :| Trace(log, ss) && ss[0] == s && ss[|log|] == t;
    var us := TraceOf(t, es, u);
    var all := ss + us[1..];
    forall i | 0 <= i < |log + es| ensures Step(all[i], (log + es)[i], all[i + 1]) {
      if i < |log| {
        assert Step(ss[i], log[i], ss[i + 1]);
      } else {
        var j := i - |log|;
        assert Step(us[j], es[j], us[j + 1]);
        assert all[i] == us[j];
      }
    }
    assert Trace(log + es, all);
  }

  // ---- What a reset can break ----------------------------------------------------------

  /** A reply to a query sent before the reset: one completion, nothing sent. */
  lemma ResetBreaksIdentity() returns (es: seq<Event>, t: Fleet)
    ensures Leads(Start(1), es, t) && AllIdle(t)
    ensures t.counters[SENT] == 0 && t.counters[COMPLETED] == 1
  {
    var s := SentBy(Start(1), 0);
    SendRun(Start(1), 0);
    ResetRun(s);
    ReplyRun(Cleared(s), 0, 0, None);
    t := AnsweredBy(Cleared(s), 0, 0, None);
    var xs := [Book(0)] + [CountSent(0)];
    Then(Start(1), xs, s, ResetSteps(s), Cleared(s));
    Then(Start(1), xs + ResetSteps(s), Cleared(s), ReplyEvents(0, 0, None), t);
    es := xs + ResetSteps(s) + ReplyEvents(0, 0, None);
  }

  /** A reset between the two counts of a reply: one NOERROR, no completion. */
  lemma ResetInsideReply() returns (es: seq<Event>, t: Fleet)
    ensures Leads(Start(1), es, t) && AllIdle(t)
    ensures t.counters[COMPLETED] == 0 && t.counters[NOERROR] == 1
  {
    var s := SentBy(Start(1), 0);
    SendRun(Start(1), 0);
    var xs := [Book(0)] + [CountSent(0)];
    var s1 := Apply(s, Match(0, 0, None));
    AndThen(Start(1), xs, s, Match(0, 0, None));
    var s2 := Apply(s1, CountReply(0));
    AndThen(Start(1), xs + [Match(0, 0, None)], s1, CountReply(0));
    var ys := xs + [Match(0, 0, None)] + [CountReply(0)];
    ResetRun(s2);
    Then(Start(1), ys, s2, ResetSteps(s2), Cleared(s2));
    AndThen(Start(1), ys + ResetSteps(s2), Cleared(s2), CountRcode(0));
    t := Apply(Cleared(s2), CountRcode(0));
    es := ys + ResetSteps(s2) + [CountRcode(0)];
  }

  /** A query sent and answered between two stores of one reset: it is reported lost,
      although it was answered and nothing is out. */
  lemma TornReset() returns (es: seq<Event>, t: Fleet)
    ensures Leads(Start(1), es, t) && AllIdle(t)
    ensures Lost(t) == 1 && t.counters[TIMEOUTS] == 0 && Sum(Outstandings(t.workers)) == 0
  {
    var s0 := Apply(Start(1), ResetNext);
    OneStep(Start(1), ResetNext);
    var s1 := SentBy(s0, 0);
    SendRun(s0, 0);
    var xs := [Book(0)] + [CountSent(0)];
    Then(Start(1), [ResetNext], s0, xs, s1);
    var s2 := AnsweredBy(s1, 0, 0, None);
    ReplyRun(s1, 0, 0, None);
    Then(Start(1), [ResetNext] + xs, s1, ReplyEvents(0, 0, None), s2);
    var ys := [ResetNext] + xs + ReplyEvents(0, 0, None);
    ResetRun(s2);
    t := Cleared(s2);
    Then(Start(1), ys, s2, ResetSteps(s2), t);
    es := ys + ResetSteps(s2);
    ZeroSum(Outstandings(t.workers));
  }
}
