/** The shared statistics (`StatsCollector`, src/stats/mod.rs), one call at a time. What
    becomes of interleaved calls is the subject of `Accounting`. */
module Stats {
  import opened Machine

  datatype Traffic = Traffic(sent: nat, completed: nat, timeouts: nat, errors: nat)

  /** Replies by rcode: NOERROR and NXDOMAIN, SERVFAIL, REFUSED and all others. */
  datatype Answers = Answers(no: nat, nx: nat) {
    function Plus(b: Answers): Answers {
      Answers(no + b.no, nx + b.nx)
    }
  }

  datatype Failures = Failures(sf: nat, rf: nat, ot: nat) {
    function Plus(b: Failures): Failures {
      Failures(sf + b.sf, rf + b.rf, ot + b.ot)
    }
  }

  datatype Rcodes = Rcodes(ok: Answers, bad: Failures) {
    function Plus(b: Rcodes): Rcodes {
      Rcodes(ok.Plus(b.ok), bad.Plus(b.bad))
    }

    function Total(): nat {
      ok.no + ok.nx + bad.sf + bad.rf + bad.ot
    }
  }

  datatype Counters = Counters(traffic: Traffic, rcodes: Rcodes, samples: multiset<nat>)

  /** Nothing has been counted. */
  predicate Unused(c: Counters) {
    && c.traffic.sent == 0 && c.traffic.completed == 0 && c.traffic.timeouts == 0 && c.traffic.errors == 0
    && c.rcodes.Total() == 0 && c.samples == multiset{}
  }

  predicate Consistent(c: Counters) {
    c.traffic.completed == c.rcodes.Total()
  }

  /** One completed reply, counted under its rcode. */
  function Replied(c: Counters, rcode: nat): (r: Counters)
    ensures r.traffic == c.traffic.(completed := c.traffic.completed + 1) && r.samples == c.samples
    ensures Consistent(c) ==> Consistent(r)
  {
    var d := c.(traffic := c.traffic.(completed := c.traffic.completed + 1));
    match rcode
    case 0 => d.(rcodes := c.rcodes.(ok := c.rcodes.ok.(no := c.rcodes.ok.no + 1)))
    case 3 => d.(rcodes := c.rcodes.(ok := c.rcodes.ok.(nx := c.rcodes.ok.nx + 1)))
    case 2 => d.(rcodes := c.rcodes.(bad := c.rcodes.bad.(sf := c.rcodes.bad.sf + 1)))
    case 5 => d.(rcodes := c.rcodes.(bad := c.rcodes.bad.(rf := c.rcodes.bad.rf + 1)))
    case _ => d.(rcodes := c.rcodes.(bad := c.rcodes.bad.(ot := c.rcodes.bad.ot + 1)))
  }

  function Sampled(c: Counters, rttUs: nat): Counters {
    c.(samples := c.samples + multiset{Max(rttUs, 1)})
  }

  class StatsCollector {
    var sent: nat
    var completed: nat
    var timeouts: nat
    var errors: nat
    var noerror: nat
    var nxdomain: nat
    var servfail: nat
    var refused: nat
    var other: nat
    var samples: multiset<nat>

    ghost function View(): Counters
      reads this
    {
      Counters(Traffic(sent, completed, timeouts, errors),
               Rcodes(Answers(noerror, nxdomain), Failures(servfail, refused, other)), samples)
    }

    /** Completions that no rcode counter shows. */
    ghost function Unbinned(): int
      reads this
    {
      completed - noerror - nxdomain - servfail - refused - other
    }

    constructor ()
      ensures Unused(View())
    {
      sent, completed, timeouts, errors := 0, 0, 0, 0;
      noerror, nxdomain, servfail, refused, other := 0, 0, 0, 0, 0;
      samples := multiset{};
    }

    method IncSent()
      modifies `sent
      ensures sent == old(sent) + 1
    {
      sent := sent + 1;
    }

    method IncSentN(n: nat)
      modifies `sent
      ensures sent == old(sent) + n
    {
      sent := sent + n;
    }

    method IncTimeout()
      modifies `timeouts
      ensures timeouts == old(timeouts) + 1
    {
      timeouts := timeouts + 1;
    }

    /** `inc_timeout` once per lost query, as the sweeps call it. */
    method IncTimeouts(n: nat)
      modifies `timeouts
      ensures timeouts == old(timeouts) + n
    {
      var k := 0;
      while k < n
        invariant k <= n && timeouts == old(timeouts) + k
      {
        IncTimeout();
        k := k + 1;
      }
    }

    method IncError()
      modifies `errors
      ensures errors == old(errors) + 1
    {
      errors := errors + 1;
    }

    /** Bulk completions by rcode, no latency sample. */
    method RecordRcodes(no: nat, nx: nat, sf: nat, rf: nat, ot: nat)
      modifies `completed, `noerror, `nxdomain, `servfail, `refused, `other
      ensures completed == old(completed) + no + nx + sf + rf + ot
      ensures noerror == old(noerror) + no && nxdomain == old(nxdomain) + nx && servfail == old(servfail) + sf
      ensures refused == old(refused) + rf && other == old(other) + ot
      ensures Unbinned() == old(Unbinned())
    {
      var total := no + nx + sf + rf + ot;
      if total == 0 { return; }
      completed := completed + total;
      if no > 0 { noerror := noerror + no; }
      if nx > 0 { nxdomain := nxdomain + nx; }
      if sf > 0 { servfail := servfail + sf; }
      if rf > 0 { refused := refused + rf; }
      if ot > 0 { other := other + ot; }
    }

    method RecordResponse(rcode: nat, rttUs: nat)
      modifies this
      ensures View() == Sampled(Replied(old(View()), rcode), rttUs)
    {
      completed := completed + 1;
      match rcode {
        case 0 => noerror := noerror + 1;
        case 3 => nxdomain := nxdomain + 1;
        case 2 => servfail := servfail + 1;
        case 5 => refused := refused + 1;
        case _ => other := other + 1;
      }
      samples := samples + multiset{Max(rttUs, 1)};
    }

    method RecordLatency(rttUs: nat)
      modifies `samples
      ensures View() == Sampled(old(View()), rttUs)
    {
      samples := samples + multiset{Max(rttUs, 1)};
    }

    method ResetWindow()
      modifies this
      ensures Unused(View())
    {
      sent, completed, timeouts, errors := 0, 0, 0, 0;
      noerror, nxdomain, servfail, refused, other := 0, 0, 0, 0, 0;
      samples := multiset{};
    }

    /** The three counts of a snapshot. */
    method Snapshot() returns (queriesSent: nat, queriesCompleted: nat, queriesLost: nat)
      ensures queriesSent == sent && queriesCompleted == completed
      ensures queriesSent <= queriesCompleted + queriesLost
      ensures queriesSent == queriesCompleted + queriesLost <==> completed <= sent
    {
      queriesSent, queriesCompleted := sent, completed;
      queriesLost := SatSub(queriesSent, queriesCompleted);
    }
  }
}
