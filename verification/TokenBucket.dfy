/** The send-rate token bucket of the XDP worker (src/transport/xdp/receiver.rs), with
    f64 arithmetic taken as exact. */
module TokenBucket {
  import opened Machine

  /** Tokens earned in `dtNs` nanoseconds at `qps`. */
  function Earned(dtNs: nat, qps: nat): real {
    dtNs as real / 1_000_000_000.0 * qps as real
  }

  function Filled(tokens: real, dtNs: nat, qps: nat): real {
    var t := tokens + Earned(dtNs, qps);
    if t < 64.0 then t else 64.0
  }

  class Bucket {
    var tokens: real
    var lastRefill: nat

    ghost predicate Valid()
      reads this
    {
      0.0 <= tokens < 1.0
    }

    constructor (now: nat)
      ensures Valid() && tokens == 0.0 && lastRefill == now
    {
      tokens, lastRefill := 0.0, now;
    }

    /** How many packets this iteration may send. An unlimited rate (0) grants a full
        batch and leaves the bucket alone. */
    method Headroom(now: nat, qps: nat) returns (n: nat)
      requires Valid() && lastRefill <= now
      modifies this
      ensures Valid() && n <= TX_BATCH
      ensures qps == 0 ==> n == TX_BATCH && tokens == old(tokens) && lastRefill == old(lastRefill)
      ensures qps > 0 ==> lastRefill == now
      ensures qps > 0 ==> (tokens, n) == After(old(tokens), [Refill(now - old(lastRefill), qps)])
    {
      if qps > 0 {
        EarnedNonNegative(now - lastRefill, qps);
        OneRefill(tokens, Refill(now - lastRefill, qps));
        tokens := Filled(tokens, now - lastRefill, qps);
        lastRefill := now;
        n := tokens.Floor;
        tokens := tokens - n as real;
      } else {
        n := TX_BATCH;
      }
    }
  }

  lemma EarnedNonNegative(dtNs: nat, qps: nat)
    ensures Earned(dtNs, qps) >= 0.0
  {
  }

  // ---- Any sequence of refills ----------------------------------------------------

  datatype Refill = Refill(dtNs: nat, qps: nat)

  function Grant(tokens: real, r: Refill): nat
    requires tokens >= 0.0
  {
    EarnedNonNegative(r.dtNs, r.qps);
    Filled(tokens, r.dtNs, r.qps).Floor
  }

  /** Tokens left and packets granted after the refills, oldest first. */
  function After(tokens: real, rs: seq<Refill>): (r: (real, nat))
    requires 0.0 <= tokens < 1.0
    ensures 0.0 <= r.0 < 1.0
    decreases |rs|
  {
    if rs == [] then (tokens, 0)
    else
      var (t, n) := After(tokens, rs[..|rs| - 1]);
      var g := Grant(t, rs[|rs| - 1]);
      (Filled(t, rs[|rs| - 1].dtNs, rs[|rs| - 1].qps) - g as real, n + g)
  }

  lemma OneRefill(tokens: real, r: Refill)
    requires 0.0 <= tokens < 1.0
    ensures After(tokens, [r]) == (Filled(tokens, r.dtNs, r.qps) - Grant(tokens, r) as real, Grant(tokens, r))
  {
    assert [r][..0] == [];
  }

  /** Tokens earned are rate times time; a second at `qps` earns `qps`. */
  lemma EarnedIs(dtNs: nat, qps: nat)
    ensures Earned(dtNs, qps) == (dtNs * qps) as real / 1_000_000_000.0
    ensures dtNs == 1_000_000_000 ==> Earned(dtNs, qps) == qps as real
  {
    assert (dtNs * qps) as real == dtNs as real * qps as real;
  }

  /** One refill in numbers: the tokens in hand and rate times time, but at most 64, of which
      the whole part is granted and the rest kept. So a refill that reaches 64 grants exactly
      64 and leaves nothing. */
  lemma RefillInNumbers(tokens: real, r: Refill)
    requires 0.0 <= tokens < 1.0
    ensures var t := tokens + (r.dtNs * r.qps) as real / 1_000_000_000.0;
      After(tokens, [r]) == if t >= 64.0 then (0.0, 64) else (t - t.Floor as real, t.Floor)
  {
    EarnedIs(r.dtNs, r.qps);
    EarnedNonNegative(r.dtNs, r.qps);
    OneRefill(tokens, r);
  }

  /** Refilling in two goes: what a bucket does next depends only on its tokens. */
  lemma {:induction false} AfterConcat(tokens: real, rs: seq<Refill>, ss: seq<Refill>)
    requires 0.0 <= tokens < 1.0
    ensures var (t, n) := After(tokens, rs); var (u, m) := After(t, ss);
      After(tokens, rs + ss) == (u, n + m)
    decreases |ss|
  {
    if ss == [] {
      assert rs + ss == rs;
    } else {
      assert (rs + ss)[..|rs + ss| - 1] == rs + ss[..|ss| - 1];
      AfterConcat(tokens, rs, ss[..|ss| - 1]);
    }
  }

  /** What the target rates alone would allow. */
  function Budget(rs: seq<Refill>): real {
    if rs == [] then 0.0 else Budget(rs[..|rs| - 1]) + Earned(rs[|rs| - 1].dtNs, rs[|rs| - 1].qps)
  }

  /** No refill hit the one-batch cap. */
  ghost predicate NeverCapped(tokens: real, rs: seq<Refill>)
    requires 0.0 <= tokens < 1.0
    decreases |rs|
  {
    rs == [] ||
    (NeverCapped(tokens, rs[..|rs| - 1]) &&
     After(tokens, rs[..|rs| - 1]).0 + Earned(rs[|rs| - 1].dtNs, rs[|rs| - 1].qps) < 64.0)
  }

  /** Over any sequence of refills, at any changing rates, the bucket never grants more
      than the initial tokens plus the sum of rate * time. */
  lemma {:induction false} NeverOverGrants(tokens: real, rs: seq<Refill>)
    requires 0.0 <= tokens < 1.0
    ensures After(tokens, rs).1 as real + After(tokens, rs).0 <= tokens + Budget(rs)
    decreases |rs|
  {
    if rs != [] { NeverOverGrants(tokens, rs[..|rs| - 1]); }
  }

  /** And when the cap is never hit it grants exactly the whole part of that sum. */
  lemma {:induction false} ExactWhenNotCapped(tokens: real, rs: seq<Refill>)
    requires 0.0 <= tokens < 1.0 && NeverCapped(tokens, rs)
    ensures After(tokens, rs).1 as real + After(tokens, rs).0 == tokens + Budget(rs)
    ensures After(tokens, rs).1 == (tokens + Budget(rs)).Floor
    decreases |rs|
  {
    if rs != [] { ExactWhenNotCapped(tokens, rs[..|rs| - 1]); }
  }
}
