/** Merging the snapshots of several NICs (`merge_snapshots`, src/engine/multi_nic.rs) and
    the share of the line rate that is reported for the result (`line_rate`,
    src/output/mod.rs). f64 arithmetic is taken as exact. */
module LineRate {
  import opened Machine

  /** A rate, size or time: never negative. */
  type Amount = x: real | 0.0 <= x

  /** The fields of a snapshot that the merged loss and line-rate figures depend on. */
  datatype Snapshot = Snapshot(
    sent: nat, completed: nat, lost: nat, runTime: Amount, avgQps: Amount,
    rxQps: Option<Amount>, rxAvgBytes: Option<Amount>, linkMbps: Option<nat>)

  datatype Rate = Rate(qps: real, avgBytes: real, linkMbps: nat, lineRatePps: real, pct: real, wireBound: bool)

  // ---- The line rate of one snapshot -----------------------------------------------------

  /** The NIC counted its replies. */
  predicate Counted(s: Snapshot) {
    s.rxQps.Some? && s.rxQps.value > 0.0
  }

  /** The reply rate that is used: the NIC's count, or else the userspace round trips. */
  function UsedQps(s: Snapshot): Amount {
    if Counted(s) then s.rxQps.value else s.avgQps
  }

  /** There are replies, and their size is known. */
  predicate Sized(s: Snapshot) {
    UsedQps(s) > 0.0 && s.rxAvgBytes.Some? && s.rxAvgBytes.value > 0.0
  }

  predicate Linked(s: Snapshot) {
    s.linkMbps.Some? && s.linkMbps.value > 0
  }

  function RateOf(s: Snapshot): (r: Option<Rate>)
    ensures r.Some? <==> Sized(s) && Linked(s)
  {
    var qps := UsedQps(s);
    if s.rxAvgBytes.None? || s.linkMbps.None? then None
    else if qps <= 0.0 || s.rxAvgBytes.value <= 0.0 || s.linkMbps.value == 0 then None
    else
      var onWire := s.rxAvgBytes.value + 24.0;
      var pps := s.linkMbps.value as real * 1_000_000.0 / (onWire * 8.0);
      QuotientPositive(s.linkMbps.value as real * 1_000_000.0, onWire * 8.0);
      var pct := qps / pps * 100.0;
      Some(Rate(qps, s.rxAvgBytes.value, s.linkMbps.value, pps, pct, pct >= 90.0))
  }

  lemma QuotientPositive(a: real, b: real)
    requires a > 0.0 && b > 0.0
    ensures a / b > 0.0
  {
  }

  /** Bits per second that the replies take on the wire: each frame with its 24 bytes of
      checksum, preamble and gap. */
  function WireBits(s: Snapshot): real
    requires Sized(s)
  {
    UsedQps(s) * (s.rxAvgBytes.value + 24.0) * 8.0
  }

  function LinkBits(s: Snapshot): real {
    if s.linkMbps.Some? then s.linkMbps.value as real * 1_000_000.0 else 0.0
  }

  lemma Product(q: real, b: real)
    requires q > 0.0 && b > 0.0
    ensures b * q > 0.0 && q * (b + 24.0) * 8.0 == 8.0 * (b * q + 24.0 * q)
  {
  }

  /** The percentage is wire bits over link bits. */
  lemma PctIsShare(s: Snapshot)
    requires RateOf(s).Some?
    ensures RateOf(s).value.pct * LinkBits(s) == 100.0 * WireBits(s)
  {
    ShareOf(UsedQps(s), (s.rxAvgBytes.value + 24.0) * 8.0, LinkBits(s));
  }

  lemma ShareOf(qps: real, frame: real, link: real)
    requires frame > 0.0 && link > 0.0
    ensures link / frame > 0.0 && qps / (link / frame) * 100.0 * link == 100.0 * (qps * frame)
  {
    QuotientPositive(link, frame);
    var pps := link / frame;
    assert pps * frame == link;
    var x := qps / pps;
    assert x * pps == qps;
    calc {
      x * 100.0 * link;
      100.0 * (x * (pps * frame));
      100.0 * (x * pps * frame);
    }
  }

  /** The percentage reported for `s` is `wire` over `link`. */
  ghost predicate Reports(s: Snapshot, wire: real, link: real) {
    RateOf(s).Some? && RateOf(s).value.pct * link == 100.0 * wire
  }

  // ---- The merge ----------------------------------------------------------------------------

  function Or0(x: Option<Amount>): Amount {
    match x
    case Some(v) => v
    case None => 0.0
  }

  function SumSent(ss: seq<Snapshot>): nat {
    if ss == [] then 0 else SumSent(ss[..|ss| - 1]) + ss[|ss| - 1].sent
  }

  function SumCompleted(ss: seq<Snapshot>): nat {
    if ss == [] then 0 else SumCompleted(ss[..|ss| - 1]) + ss[|ss| - 1].completed
  }

  function SumLost(ss: seq<Snapshot>): nat {
    if ss == [] then 0 else SumLost(ss[..|ss| - 1]) + ss[|ss| - 1].lost
  }

  function MaxTime(ss: seq<Snapshot>): Amount {
    if ss == [] then 0.0
    else
      var m := MaxTime(ss[..|ss| - 1]);
      if ss[|ss| - 1].runTime > m then ss[|ss| - 1].runTime else m
  }

  function SumQps(ss: seq<Snapshot>): Amount {
    if ss == [] then 0.0 else SumQps(ss[..|ss| - 1]) + Or0(ss[|ss| - 1].rxQps)
  }

  function SumMbps(ss: seq<Snapshot>): nat {
    if ss == [] then 0
    else SumMbps(ss[..|ss| - 1]) + if ss[|ss| - 1].linkMbps.Some? then ss[|ss| - 1].linkMbps.value else 0
  }

  /** Reply bytes per second, where both the size and the rate are known. */
  function KnownBytes(s: Snapshot): Amount {
    if s.rxAvgBytes.Some? && s.rxQps.Some? then s.rxAvgBytes.value * s.rxQps.value else 0.0
  }

  function SumBytes(ss: seq<Snapshot>): Amount {
    if ss == [] then 0.0
    else SumBytes(ss[..|ss| - 1]) + KnownBytes(ss[|ss| - 1])
  }

  /** Replies per second of the snapshots that know their reply size. */
  function SumSizedQps(ss: seq<Snapshot>): Amount {
    if ss == [] then 0.0
    else
      var s := ss[|ss| - 1];
      SumSizedQps(ss[..|ss| - 1]) + if s.rxAvgBytes.Some? then Or0(s.rxQps) else 0.0
  }

  function Quotient(a: Amount, b: Amount): Amount
    requires b > 0.0
  {
    assert a / b >= 0.0;
    a / b
  }

  function Merge(ss: seq<Snapshot>): Snapshot {
    if ss == [] then Snapshot(0, 0, 0, 0.0, 0.0, None, None, None)
    else
      var time, qps, mbps, den := MaxTime(ss), SumQps(ss), SumMbps(ss), SumSizedQps(ss);
      Snapshot(
        SumSent(ss), SumCompleted(ss), SumLost(ss), time,
        if time > 0.0 then Quotient(SumCompleted(ss) as real, time) else 0.0,
        if qps > 0.0 then Some(qps) else None,
        if den > 0.0 then Some(Quotient(SumBytes(ss), den)) else None,
        if mbps > 0 then Some(mbps) else None)
  }

  // ---- What the engine measures ----------------------------------------------------------

  /** Packets and bytes received on the return NICs of a run, the sum of the link speeds
      that could be read, and the length of the run. */
  datatype Readings = Readings(packets: nat, bytes: nat, mbps: nat, secs: Amount)

  /** The snapshot of a run with what was read of its NICs, if there are any. */
  function Measure(s: Snapshot, rx: Option<Readings>): (r: Snapshot)
    requires rx.Some? ==> rx.value.secs > 0.0
    requires s.rxQps.None? && s.rxAvgBytes.None? && s.linkMbps.None?
    ensures Measured(r)
  {
    match rx
    case None => s
    case Some(v) =>
      var sized := v.packets > 0 && v.bytes > 0;
      if v.packets > 0 then QuotientPositive(v.packets as real, v.secs);
        s.(rxQps := Some(Quotient(v.packets as real, v.secs)),
           rxAvgBytes := if sized then SomeQuotient(v.bytes, v.packets) else None,
           linkMbps := if v.mbps > 0 then Some(v.mbps) else None)
      else
        s.(rxQps := Some(0.0), linkMbps := if v.mbps > 0 then Some(v.mbps) else None)
  }

  /** In numbers: packets over seconds, bytes over packets, and the speed if one was read. */
  lemma MeasuredIs(s: Snapshot, v: Readings)
    requires v.secs > 0.0 && s.rxQps.None? && s.rxAvgBytes.None? && s.linkMbps.None?
    ensures var r := Measure(s, Some(v));
      && r.rxQps.Some? && r.rxQps.value * v.secs == v.packets as real
      && (r.rxAvgBytes.Some? <==> v.packets > 0 && v.bytes > 0)
      && (r.rxAvgBytes.Some? ==> r.rxAvgBytes.value * v.packets as real == v.bytes as real)
      && r.linkMbps == (if v.mbps > 0 then Some(v.mbps) else None)
      && r.(rxQps := None, rxAvgBytes := None, linkMbps := None) == s
    ensures Measure(s, None) == s
  {
  }

  function SomeQuotient(a: nat, b: nat): (r: Option<Amount>)
    requires a > 0 && b > 0
    ensures r.Some? && r.value > 0.0
  {
    QuotientPositive(a as real, b as real);
    Some(a as real / b as real)
  }

  /** What every measured snapshot satisfies: a known reply size is positive and comes with a
      counted rate; a known speed is positive and comes with a rate, which may be 0. */
  predicate Measured(s: Snapshot) {
    && (s.rxAvgBytes.Some? ==> Counted(s) && s.rxAvgBytes.value > 0.0)
    && (s.linkMbps.Some? ==> s.rxQps.Some? && s.linkMbps.value > 0)
  }

  predicate AllMeasured(ss: seq<Snapshot>) {
    forall i :: 0 <= i < |ss| ==> Measured(ss[i])
  }

  /** The NIC has a percentage of its own. */
  predicate Rated(s: Snapshot) {
    RateOf(s).Some?
  }

  // ---- What the merged percentage says, for every list ------------------------------------

  /** What the merge charges a NIC on the wire if it takes an unknown reply size to be `mean`:
      the bytes of its counted replies, and 24 more for each. */
  ghost function Charge(s: Snapshot, mean: real): real {
    8.0 * (KnownBytes(s) + 24.0 * Or0(s.rxQps) + GuessedBytes(s, mean))
  }

  ghost function GuessedBytes(s: Snapshot, mean: real): real {
    if s.rxAvgBytes.Some? then 0.0 else mean * Or0(s.rxQps)
  }

  ghost function ChargedWire(ss: seq<Snapshot>, mean: real): real {
    if ss == [] then 0.0 else ChargedWire(ss[..|ss| - 1], mean) + Charge(ss[|ss| - 1], mean)
  }

  ghost function TotalLink(ss: seq<Snapshot>): real {
    if ss == [] then 0.0 else TotalLink(ss[..|ss| - 1]) + LinkBits(ss[|ss| - 1])
  }

  /** The average reply size over the NICs that know theirs. */
  ghost function Mean(ss: seq<Snapshot>): real {
    if SumSizedQps(ss) > 0.0 then SumBytes(ss) / SumSizedQps(ss) else 0.0
  }

  lemma Spread(mean: real, a: real, b: real)
    ensures mean * (a + b) == mean * a + mean * b
  {
  }

  /** Bytes per second charged for replies of unknown size. */
  ghost function Guessed(ss: seq<Snapshot>, mean: real): real {
    if ss == [] then 0.0
    else Guessed(ss[..|ss| - 1], mean) + GuessedBytes(ss[|ss| - 1], mean)
  }

  ghost predicate IsProduct(x: real, a: real, b: real) {
    x == a * b
  }

  lemma Grows(x: real, mean: real, a: real, b: real)
    requires IsProduct(x, mean, a)
    ensures IsProduct(x + mean * b, mean, a + b)
  {
  }

  /** Replies per second of unknown size. */
  ghost function UnsizedQps(ss: seq<Snapshot>): real {
    if ss == [] then 0.0
    else UnsizedQps(ss[..|ss| - 1]) + if ss[|ss| - 1].rxAvgBytes.Some? then 0.0 else Or0(ss[|ss| - 1].rxQps)
  }

  lemma {:induction false} UnsizedIs(ss: seq<Snapshot>)
    ensures UnsizedQps(ss) == SumQps(ss) - SumSizedQps(ss) >= 0.0
    decreases |ss|
  {
    if ss != [] { UnsizedIs(ss[..|ss| - 1]); }
  }

  lemma {:induction false} GuessedIs(ss: seq<Snapshot>, mean: real)
    ensures IsProduct(Guessed(ss, mean), mean, UnsizedQps(ss))
    decreases |ss|
  {
    if ss != [] {
      var init, s := ss[..|ss| - 1], ss[|ss| - 1];
      GuessedIs(init, mean);
      if s.rxAvgBytes.None? { Grows(Guessed(init, mean), mean, UnsizedQps(init), Or0(s.rxQps)); }
    }
  }

  lemma {:induction false} ChargedSums(ss: seq<Snapshot>, mean: real)
    ensures ChargedWire(ss, mean) == 8.0 * (SumBytes(ss) + 24.0 * SumQps(ss) + Guessed(ss, mean))
    decreases |ss|
  {
    if ss != [] {
      ChargedSums(ss[..|ss| - 1], mean);
    }
  }

  lemma {:induction false} LinkSums(ss: seq<Snapshot>)
    ensures TotalLink(ss) == SumMbps(ss) as real * 1_000_000.0
    decreases |ss|
  {
    if ss != [] { LinkSums(ss[..|ss| - 1]); }
  }

  /** `s` is rated, with these bits on the wire and this link. */
  ghost predicate Holds(s: Snapshot, wire: real, link: real) {
    Rated(s) && WireBits(s) == wire && LinkBits(s) == link
  }

  lemma HoldsReports(s: Snapshot, wire: real, link: real)
    requires Holds(s, wire, link)
    ensures Reports(s, wire, link)
  {
    PctIsShare(s);
  }

  /** The bits of a snapshot made of sums, of which `known` of `qps` have a known size. */
  lemma BitsOfSums(m: Snapshot, qps: Amount, known: Amount, bytes: Amount, guessed: real, mbps: nat)
    requires 0.0 < known <= qps && bytes > 0.0 && mbps > 0 && IsProduct(guessed, bytes / known, qps - known)
    requires m.rxQps == Some(qps) && m.rxAvgBytes == Some(Quotient(bytes, known)) && m.linkMbps == Some(mbps)
    ensures Holds(m, 8.0 * (bytes + 24.0 * qps + guessed), mbps as real * 1_000_000.0)
  {
    QuotientPositive(bytes, known);
    var mean := bytes / known;
    assert mean * known == bytes;
    Spread(mean, known, qps - known);
    Product(qps, mean);
  }

  /** With a counted reply of known size and a known link, the merge is made of sums. */
  lemma MergedBits(ss: seq<Snapshot>)
    requires ss != [] && SumBytes(ss) > 0.0 && SumSizedQps(ss) > 0.0 && SumMbps(ss) > 0
    ensures Holds(Merge(ss), ChargedWire(ss, Mean(ss)), TotalLink(ss)) && TotalLink(ss) > 0.0
  {
    UnsizedIs(ss);
    GuessedIs(ss, Mean(ss));
    ChargedSums(ss, Mean(ss));
    LinkSums(ss);
    BitsOfSums(Merge(ss), SumQps(ss), SumSizedQps(ss), SumBytes(ss), Guessed(ss, Mean(ss)), SumMbps(ss));
  }

  lemma {:induction false} SumsPositive(ss: seq<Snapshot>)
    ensures SumMbps(ss) > 0 <==> exists i :: 0 <= i < |ss| && Linked(ss[i])
    ensures SumBytes(ss) > 0.0 <==> exists i :: 0 <= i < |ss| && KnowsBytes(ss[i])
    ensures SumBytes(ss) > 0.0 ==> SumSizedQps(ss) > 0.0
    decreases |ss|
  {
    if ss != [] {
      var init, s := ss[..|ss| - 1], ss[|ss| - 1];
      SumsPositive(init);
      if KnowsBytes(s) { Product(s.rxQps.value, s.rxAvgBytes.value); }
      assert forall i :: 0 <= i < |ss| ==> ss[i] == if i < |init| then init[i] else s;
      assert ss[|ss| - 1] == s;
      assert forall i :: 0 <= i < |init| ==> init[i] == ss[i];
    }
  }

  /** The NIC counted replies of a known, positive size. */
  predicate KnowsBytes(s: Snapshot) {
    Counted(s) && s.rxAvgBytes.Some? && s.rxAvgBytes.value > 0.0
  }

  /** A merge has a percentage exactly when some NIC counted replies of a known size and
      some link speed is known. */
  lemma MergedReportsIff(ss: seq<Snapshot>)
    ensures Rated(Merge(ss)) <==>
      (exists i :: 0 <= i < |ss| && KnowsBytes(ss[i])) && (exists i :: 0 <= i < |ss| && Linked(ss[i]))
  {
    SumsPositive(ss);
    UnsizedIs(ss);
    if ss != [] && SumBytes(ss) > 0.0 && SumMbps(ss) > 0 {
      MergedBits(ss);
    } else if ss != [] && SumSizedQps(ss) > 0.0 && SumBytes(ss) == 0.0 {
      assert 0.0 / SumSizedQps(ss) == 0.0;
    }
  }

  /** What it then is, for every list: the bits of all NICs that counted their replies, an
      unknown size taken to be the average of the known ones, over all known links. */
  lemma MergedShare(ss: seq<Snapshot>)
    requires Rated(Merge(ss))
    ensures Reports(Merge(ss), ChargedWire(ss, Mean(ss)), TotalLink(ss)) && TotalLink(ss) > 0.0
  {
    MergedReportsIff(ss);
    SumsPositive(ss);
    MergedBits(ss);
    HoldsReports(Merge(ss), ChargedWire(ss, Mean(ss)), TotalLink(ss));
  }

  // ---- When that is the share of the NICs that have one ------------------------------------

  /** Bits and link of the NICs with a percentage of their own. */
  ghost function RatedWire(ss: seq<Snapshot>): real {
    if ss == [] then 0.0
    else RatedWire(ss[..|ss| - 1]) + if Rated(ss[|ss| - 1]) then WireBits(ss[|ss| - 1]) else 0.0
  }

  ghost function RatedLink(ss: seq<Snapshot>): real {
    if ss == [] then 0.0
    else RatedLink(ss[..|ss| - 1]) + if Rated(ss[|ss| - 1]) then LinkBits(ss[|ss| - 1]) else 0.0
  }

  /** Bits charged to the other NICs, and their links. */
  ghost function OddWire(ss: seq<Snapshot>, mean: real): real {
    if ss == [] then 0.0
    else OddWire(ss[..|ss| - 1], mean) + if Rated(ss[|ss| - 1]) then 0.0 else Charge(ss[|ss| - 1], mean)
  }

  ghost function OddLink(ss: seq<Snapshot>): real {
    if ss == [] then 0.0
    else OddLink(ss[..|ss| - 1]) + if Rated(ss[|ss| - 1]) then 0.0 else LinkBits(ss[|ss| - 1])
  }

  /** Every NIC that counted its replies has a percentage of its own. */
  predicate CountedAreRated(ss: seq<Snapshot>) {
    forall i :: 0 <= i < |ss| && Counted(ss[i]) ==> Rated(ss[i])
  }

  predicate LinkedAreRated(ss: seq<Snapshot>) {
    forall i :: 0 <= i < |ss| && Linked(ss[i]) ==> Rated(ss[i])
  }

  predicate SomeRated(ss: seq<Snapshot>) {
    exists i :: 0 <= i < |ss| && Rated(ss[i])
  }

  lemma NotNegative(a: real, b: real)
    requires a >= 0.0 && b > 0.0
    ensures a * b >= 0.0
  {
  }

  /** A measured NIC is charged what it counted, and at least something if it counted. */
  lemma ChargeOf(s: Snapshot, mean: real)
    requires Measured(s) && mean >= 0.0
    ensures Charge(s, mean) >= 0.0 && (Charge(s, mean) > 0.0 <==> Counted(s))
    ensures Rated(s) ==> Charge(s, mean) == WireBits(s) > 0.0 && LinkBits(s) > 0.0
    ensures LinkBits(s) >= 0.0 && (LinkBits(s) > 0.0 <==> Linked(s))
  {
    if Counted(s) {
      if s.rxAvgBytes.Some? {
        Product(s.rxQps.value, s.rxAvgBytes.value);
      } else {
        NotNegative(mean, s.rxQps.value);
      }
    }
  }

  lemma {:induction false} Parts(ss: seq<Snapshot>, mean: real)
    requires AllMeasured(ss) && mean >= 0.0
    ensures ChargedWire(ss, mean) == RatedWire(ss) + OddWire(ss, mean)
    ensures TotalLink(ss) == RatedLink(ss) + OddLink(ss)
    ensures RatedWire(ss) >= 0.0 && RatedLink(ss) >= 0.0
    ensures SomeRated(ss) ==> RatedWire(ss) > 0.0 && RatedLink(ss) > 0.0
    decreases |ss|
  {
    if ss != [] {
      var init, s := ss[..|ss| - 1], ss[|ss| - 1];
      Parts(init, mean);
      ChargeOf(s, mean);
      if SomeRated(ss) && !Rated(s) {
        var i :| 0 <= i < |ss| && Rated(ss[i]);
        assert init[i] == ss[i];
      }
    }
  }

  lemma {:induction false} OddParts(ss: seq<Snapshot>, mean: real)
    requires AllMeasured(ss) && mean >= 0.0
    ensures OddWire(ss, mean) >= 0.0 && (OddWire(ss, mean) == 0.0 <==> CountedAreRated(ss))
    ensures OddLink(ss) >= 0.0 && (OddLink(ss) == 0.0 <==> LinkedAreRated(ss))
    decreases |ss|
  {
    if ss != [] {
      var init, s := ss[..|ss| - 1], ss[|ss| - 1];
      OddParts(init, mean);
      ChargeOf(s, mean);
      assert forall i :: 0 <= i < |ss| ==> ss[i] == if i < |init| then init[i] else s;
      assert forall i :: 0 <= i < |init| ==> init[i] == ss[i];
      assert ss[|ss| - 1] == s;
    }
  }

  lemma MeanNotNegative(ss: seq<Snapshot>)
    ensures Mean(ss) >= 0.0
  {
    if SumSizedQps(ss) > 0.0 { var _ := Quotient(SumBytes(ss), SumSizedQps(ss)); }
  }

  /** The percentage reported for `s` is less than `wire` over `link`. */
  ghost predicate ReportsLess(s: Snapshot, wire: real, link: real) {
    Rated(s) && RateOf(s).value.pct * link < 100.0 * wire
  }

  /** What a report of `w + x` over `l + y` says about `w` over `l`. */
  lemma AddedShare(m: Snapshot, w: real, l: real, x: real, y: real)
    requires w > 0.0 && l > 0.0 && x >= 0.0 && y >= 0.0 && Reports(m, w + x, l + y)
    ensures x == 0.0 ==> (Reports(m, w, l) <==> y == 0.0) && (ReportsLess(m, w, l) <==> y > 0.0)
    ensures y == 0.0 ==> (Reports(m, w, l) <==> x == 0.0) && !ReportsLess(m, w, l)
  {
    var pct := RateOf(m).value.pct;
    Spread(pct, l, y);
    if pct <= 0.0 { NotPositive(pct, l + y); }
    if y > 0.0 { PositiveProduct(pct, y); }
  }

  lemma NotPositive(a: real, b: real)
    requires a <= 0.0 && b > 0.0
    ensures a * b <= 0.0
  {
  }

  lemma PositiveProduct(a: real, b: real)
    requires a > 0.0 && b > 0.0
    ensures a * b > 0.0
  {
  }

  /** What the merge of measured snapshots reports, split into the NICs with a percentage of
      their own and the others. */
  lemma MergedParts(ss: seq<Snapshot>)
    requires AllMeasured(ss) && SomeRated(ss)
    ensures Rated(Merge(ss)) && RatedWire(ss) > 0.0 && RatedLink(ss) > 0.0
    ensures Reports(Merge(ss), RatedWire(ss) + OddWire(ss, Mean(ss)), RatedLink(ss) + OddLink(ss))
  {
    var i :| 0 <= i < |ss| && Rated(ss[i]);
    assert KnowsBytes(ss[i]) && Linked(ss[i]);
    MergedReportsIff(ss);
    MergedShare(ss);
    MeanNotNegative(ss);
    Parts(ss, Mean(ss));
  }

  /** `x` is to `y` as `w` is to `l`. */
  ghost predicate Proportional(x: real, y: real, w: real, l: real) {
    x * l == w * y
  }

  lemma SameShare(m: Snapshot, w: real, l: real, x: real, y: real)
    requires l > 0.0 && y >= 0.0 && Reports(m, w + x, l + y)
    ensures Reports(m, w, l) <==> Proportional(x, y, w, l)
  {
    var pct := RateOf(m).value.pct;
    Spread(pct, l, y);
    if pct * l == 100.0 * w {
      calc {
        100.0 * (x * l);
        (pct * y) * l;
        (pct * l) * y;
        100.0 * (w * y);
      }
    }
    if x * l == w * y {
      calc {
        (pct * l) * (l + y);
        (pct * (l + y)) * l;
        100.0 * (w * l + x * l);
        (100.0 * w) * (l + y);
      }
      Cancels(pct * l, 100.0 * w, l + y);
    }
  }

  /** The merge is the share of the rated NICs exactly when the bits charged to the others
      are to their links as those of the rated ones are to theirs. */
  lemma MergedExactIff(ss: seq<Snapshot>)
    requires AllMeasured(ss) && SomeRated(ss)
    ensures Reports(Merge(ss), RatedWire(ss), RatedLink(ss)) <==>
      Proportional(OddWire(ss, Mean(ss)), OddLink(ss), RatedWire(ss), RatedLink(ss))
  {
    MergedParts(ss);
    OddLinkNotNegative(ss);
    SameShare(Merge(ss), RatedWire(ss), RatedLink(ss), OddWire(ss, Mean(ss)), OddLink(ss));
  }

  /** If every NIC that counted its replies is rated, the merge is the share of the rated
      NICs exactly when every linked one is, and too low otherwise; if every linked one is,
      exactly when every one that counted is, and too high otherwise. */
  lemma ExactWhen(ss: seq<Snapshot>)
    requires AllMeasured(ss) && SomeRated(ss)
    ensures CountedAreRated(ss) ==>
      && (Reports(Merge(ss), RatedWire(ss), RatedLink(ss)) <==> LinkedAreRated(ss))
      && (ReportsLess(Merge(ss), RatedWire(ss), RatedLink(ss)) <==> !LinkedAreRated(ss))
    ensures LinkedAreRated(ss) ==>
      && (Reports(Merge(ss), RatedWire(ss), RatedLink(ss)) <==> CountedAreRated(ss))
      && !ReportsLess(Merge(ss), RatedWire(ss), RatedLink(ss))
  {
    MergedParts(ss);
    MeanNotNegative(ss);
    OddParts(ss, Mean(ss));
    AddedShare(Merge(ss), RatedWire(ss), RatedLink(ss), OddWire(ss, Mean(ss)), OddLink(ss));
  }

  /** What is known of a NIC, without the figures. */
  datatype Flags = Flags(counted: bool, sized: bool, linked: bool)

  function FlagsOf(s: Snapshot): Flags {
    Flags(Counted(s), s.rxAvgBytes.Some?, Linked(s))
  }

  ghost predicate SameFlags(ss: seq<Snapshot>, tt: seq<Snapshot>) {
    |ss| == |tt| && forall i :: 0 <= i < |ss| ==> FlagsOf(ss[i]) == FlagsOf(tt[i])
  }

  /** Whatever the rates, sizes and speeds, the merge is the share of the rated NICs. */
  ghost predicate AlwaysExact(ss: seq<Snapshot>) {
    forall tt :: SameFlags(ss, tt) && AllMeasured(tt) ==> Reports(Merge(tt), RatedWire(tt), RatedLink(tt))
  }

  lemma FlagsRate(s: Snapshot, t: Snapshot)
    requires Measured(s) && Measured(t) && FlagsOf(s) == FlagsOf(t)
    ensures Rated(s) <==> Rated(t)
  {
  }

  lemma FlagsSuffice(ss: seq<Snapshot>, tt: seq<Snapshot>)
    requires AllMeasured(ss) && AllMeasured(tt) && SameFlags(ss, tt)
    ensures SomeRated(ss) ==> SomeRated(tt)
    ensures CountedAreRated(ss) ==> CountedAreRated(tt)
    ensures LinkedAreRated(ss) ==> LinkedAreRated(tt)
  {
    forall i | 0 <= i < |ss| ensures Rated(ss[i]) <==> Rated(tt[i]) {
      FlagsRate(ss[i], tt[i]);
    }
    if SomeRated(ss) {
      var i :| 0 <= i < |ss| && Rated(ss[i]);
      assert Rated(tt[i]);
    }
    forall i | 0 <= i < |tt| ensures FlagsOf(ss[i]) == FlagsOf(tt[i]) {
    }
  }

  /** A NIC with these flags: a million replies of 101 bytes a second, and a link of one
      gigabit if it is rated and of `mbps` if not. */
  function Sample(f: Flags, mbps: nat): Snapshot {
    Snapshot(0, 0, 0, 1.0, 0.0, Some(if f.counted then 1_000_000.0 else 0.0), if f.sized then Some(101.0) else None,
             if f.linked then Some(if f.sized then 1000 else mbps) else None)
  }

  ghost function Samples(ss: seq<Snapshot>, mbps: nat): seq<Snapshot> {
    seq(|ss|, i requires 0 <= i < |ss| => Sample(FlagsOf(ss[i]), mbps))
  }

  lemma SampleIs(s: Snapshot, mbps: nat)
    requires Measured(s) && mbps > 0
    ensures var t := Sample(FlagsOf(s), mbps);
      && Measured(t) && FlagsOf(t) == FlagsOf(s) && KnownBytes(t) == 101.0 * (if t.rxAvgBytes.Some? then Or0(t.rxQps) else 0.0)
      && Charge(t, 101.0) == (if Counted(t) then 1_000_000_000.0 else 0.0)
      && (Rated(t) ==> WireBits(t) == LinkBits(t) == 1_000_000_000.0)
      && (!Rated(t) && Linked(t) && !t.rxAvgBytes.Some? ==> LinkBits(t) == mbps as real * 1_000_000.0)
  {
  }

  lemma {:induction false} SampleSums(ss: seq<Snapshot>, mbps: nat)
    requires AllMeasured(ss) && mbps > 0
    ensures var tt := Samples(ss, mbps);
      && SumBytes(tt) == 101.0 * SumSizedQps(tt) && RatedWire(tt) == RatedLink(tt)
      && OddWire(tt, 101.0) <= 1_000_000_000.0 * |ss| as real
      && (OddLink(tt) == 0.0 || OddLink(tt) >= mbps as real * 1_000_000.0)
    decreases |ss|
  {
    if ss != [] {
      var init, s := ss[..|ss| - 1], ss[|ss| - 1];
      SampleSums(init, mbps);
      SampleIs(s, mbps);
      assert Samples(ss, mbps)[..|ss| - 1] == Samples(init, mbps);
      OddLinkNotNegative(Samples(init, mbps));
    }
  }

  lemma {:induction false} OddLinkNotNegative(ss: seq<Snapshot>)
    ensures OddLink(ss) >= 0.0
    decreases |ss|
  {
    if ss != [] { OddLinkNotNegative(ss[..|ss| - 1]); }
  }

  /** What is not rated and yet counted or linked can always spoil the figure. */
  lemma Spoils(ss: seq<Snapshot>) returns (tt: seq<Snapshot>)
    requires AllMeasured(ss) && SomeRated(ss) && !(CountedAreRated(ss) && LinkedAreRated(ss))
    ensures SameFlags(ss, tt) && AllMeasured(tt) && !Reports(Merge(tt), RatedWire(tt), RatedLink(tt))
  {
    var k := 1000 * (|ss| + 1);
    tt := Samples(ss, k);
    forall i | 0 <= i < |ss| ensures Measured(tt[i]) && FlagsOf(tt[i]) == FlagsOf(ss[i]) {
      SampleIs(ss[i], k);
    }
    FlagsSuffice(ss, tt);
    FlagsSuffice(tt, ss);
    SampleSums(ss, k);
    MergedParts(tt);
    SampleMean(tt);
    OddParts(tt, 101.0);
    UnevenShare(Merge(tt), RatedLink(tt), OddWire(tt, 101.0), OddLink(tt));
  }

  lemma SampleMean(tt: seq<Snapshot>)
    requires AllMeasured(tt) && SomeRated(tt) && SumBytes(tt) == 101.0 * SumSizedQps(tt)
    ensures Mean(tt) == 101.0
  {
    var i :| 0 <= i < |tt| && Rated(tt[i]);
    assert KnowsBytes(tt[i]);
    SumsPositive(tt);
    QuotientIs(SumBytes(tt), SumSizedQps(tt), 101.0);
  }

  lemma QuotientIs(a: real, b: real, c: real)
    requires b > 0.0 && a == c * b
    ensures a / b == c
  {
    Cancels(a / b, c, b);
  }

  lemma UnevenShare(m: Snapshot, l: real, x: real, y: real)
    requires l > 0.0 && x != y && Reports(m, l + x, l + y)
    ensures !Reports(m, l, l)
  {
    var pct := RateOf(m).value.pct;
    if pct * l == 100.0 * l {
      Cancels(pct, 100.0, l);
    }
  }

  lemma Cancels(a: real, b: real, l: real)
    requires l > 0.0 && a * l == b * l
    ensures a == b
  {
    assert (a - b) * l == 0.0;
  }

  /** So which NICs counted and which links are known decides whether the figure can be
      trusted: exactly if everything that counts towards it is rated. */
  lemma FlagsDecide(ss: seq<Snapshot>)
    requires AllMeasured(ss) && SomeRated(ss)
    ensures AlwaysExact(ss) <==> CountedAreRated(ss) && LinkedAreRated(ss)
  {
    if CountedAreRated(ss) && LinkedAreRated(ss) {
      forall tt | SameFlags(ss, tt) && AllMeasured(tt) ensures Reports(Merge(tt), RatedWire(tt), RatedLink(tt)) {
        FlagsSuffice(ss, tt);
        ExactWhen(tt);
      }
    } else {
      var tt := Spoils(ss);
      assert SameFlags(ss, tt);
    }
  }

  // ---- Two runs -----------------------------------------------------------------------------

  /** The snapshot of a run before its NICs are read. */
  function Plain(): Snapshot {
    Snapshot(0, 0, 0, 10.0, 1_000_000.0, None, None, None)
  }

  /** Two one-gigabit links in ten seconds, the first saturated; the packet counters of the
      second cannot be read. The merge says 50 %. */
  lemma HalfTheTraffic() returns (ss: seq<Snapshot>)
    ensures ss == [Measure(Plain(), Some(Readings(10_000_000, 1_010_000_000, 1000, 10.0))),
                   Measure(Plain(), Some(Readings(0, 0, 1000, 10.0)))]
    ensures Rated(ss[0]) && RateOf(ss[0]).value.pct == 100.0 && !Rated(ss[1])
    ensures Rated(Merge(ss)) && RateOf(Merge(ss)).value.pct == 50.0
  {
    var a := Plain().(rxQps := Some(1_000_000.0), rxAvgBytes := Some(101.0), linkMbps := Some(1000));
    var b := Plain().(rxQps := Some(0.0), linkMbps := Some(1000));
    ss := [a, b];
    assert ss[..1] == [a] && [a][..0] == [];
    assert SumQps([a]) == 1_000_000.0 && SumMbps([a]) == 1000;
    assert SumBytes([a]) == 101_000_000.0 && SumSizedQps([a]) == 1_000_000.0;
    assert Merge(ss).rxAvgBytes == Some(101.0);
  }

  /** One NIC has counted and one is linked, but neither has a percentage. The merge has one. */
  lemma ShareOfNobody() returns (ss: seq<Snapshot>)
    ensures ss == [Measure(Plain(), Some(Readings(10_000_000, 1_010_000_000, 0, 10.0))),
                   Measure(Plain(), Some(Readings(0, 0, 1000, 10.0)))]
    ensures !SomeRated(ss) && Rated(Merge(ss)) && RateOf(Merge(ss)).value.pct == 100.0
  {
    var a := Plain().(rxQps := Some(1_000_000.0), rxAvgBytes := Some(101.0));
    var b := Plain().(rxQps := Some(0.0), linkMbps := Some(1000));
    ss := [a, b];
    assert ss[..1] == [a] && [a][..0] == [];
    assert SumQps([a]) == 1_000_000.0 && SumMbps([a]) == 0;
    assert SumBytes([a]) == 101_000_000.0 && SumSizedQps([a]) == 1_000_000.0;
    assert Merge(ss).rxAvgBytes == Some(101.0);
  }

  ghost function SizedQps(s: Snapshot): real {
    if s.rxAvgBytes.Some? then Or0(s.rxQps) else 0.0
  }

  /** A NIC without counters and one of unknown speed that carries what the other could. */
  lemma CancelsOut(a: Snapshot, b: Snapshot, d: Snapshot, g: real)
    requires Measured(a) && Measured(b) && Measured(d) && g > 0.0
    requires Rated(a) && WireBits(a) == LinkBits(a) == g && KnownBytes(a) == 101.0 * SizedQps(a)
    requires !Rated(b) && Charge(b, 101.0) == 0.0 && LinkBits(b) == g && KnownBytes(b) == 101.0 * SizedQps(b)
    requires !Rated(d) && Charge(d, 101.0) == g && LinkBits(d) == 0.0 && KnownBytes(d) == 101.0 * SizedQps(d)
    ensures var ss := [a] + [b] + [d]; Reports(Merge(ss), RatedWire(ss), RatedLink(ss))
  {
    var ss := [a] + [b] + [d];
    assert ss[0] == a;
    Appended([], a, 101.0);
    assert [] + [a] == [a];
    Appended([a], b, 101.0);
    Appended([a] + [b], d, 101.0);
    MergedParts(ss);
    SampleMean(ss);
    EvenShare(Merge(ss), RatedLink(ss), OddLink(ss));
  }

  /** So the two errors can cancel. */
  lemma ErrorsCancel() returns (ss: seq<Snapshot>)
    ensures AllMeasured(ss) && SomeRated(ss) && !CountedAreRated(ss) && !LinkedAreRated(ss)
    ensures Reports(Merge(ss), RatedWire(ss), RatedLink(ss))
  {
    var a, b, d := Sample(Flags(true, true, true), 1000), Sample(Flags(false, false, true), 1000),
                   Sample(Flags(true, true, false), 1000);
    CancelsOut(a, b, d, 1_000_000_000.0);
    ss := [a] + [b] + [d];
    assert Rated(ss[0]) && Linked(ss[1]) && !Rated(ss[1]) && Counted(ss[2]) && !Rated(ss[2]);
  }

  lemma Appended(init: seq<Snapshot>, s: Snapshot, mean: real)
    ensures var ss := init + [s];
      && SumBytes(ss) == SumBytes(init) + KnownBytes(s)
      && SumSizedQps(ss) == SumSizedQps(init) + SizedQps(s)
      && RatedWire(ss) == RatedWire(init) + (if Rated(s) then WireBits(s) else 0.0)
      && RatedLink(ss) == RatedLink(init) + (if Rated(s) then LinkBits(s) else 0.0)
      && OddWire(ss, mean) == OddWire(init, mean) + (if Rated(s) then 0.0 else Charge(s, mean))
      && OddLink(ss) == OddLink(init) + (if Rated(s) then 0.0 else LinkBits(s))
  {
    assert (init + [s])[..|init|] == init;
  }

  lemma EvenShare(m: Snapshot, l: real, x: real)
    requires l > 0.0 && x >= 0.0 && Reports(m, l + x, l + x)
    ensures Reports(m, l, l)
  {
    Cancels(RateOf(m).value.pct, 100.0, l + x);
  }

  // ---- Between the NICs' percentages --------------------------------------------------------

  /** `wire` is between `lo` and `hi` percent of `link`. */
  predicate Share(lo: real, hi: real, wire: real, link: real) {
    lo * link <= 100.0 * wire <= hi * link
  }

  lemma SharesAdd(lo: real, hi: real, w1: real, l1: real, w2: real, l2: real)
    requires Share(lo, hi, w1, l1) && Share(lo, hi, w2, l2)
    ensures Share(lo, hi, w1 + w2, l1 + l2)
  {
  }

  lemma Scaled(a: real, b: real, k: real)
    requires k > 0.0
    ensures a <= b <==> a * k <= b * k
  {
  }

  ghost predicate PctAtLeast(s: Snapshot, lo: real) {
    Rated(s) && lo <= RateOf(s).value.pct
  }

  ghost predicate PctAtMost(s: Snapshot, hi: real) {
    Rated(s) && RateOf(s).value.pct <= hi
  }

  /** Every percentage there is lies between `lo` and `hi`. */
  ghost predicate AllBetween(ss: seq<Snapshot>, lo: real, hi: real) {
    forall i :: 0 <= i < |ss| && Rated(ss[i]) ==> PctAtLeast(ss[i], lo) && PctAtMost(ss[i], hi)
  }

  /** A bound on a percentage is a bound on the bits. */
  lemma PctWithin(s: Snapshot, lo: real, hi: real)
    requires PctAtLeast(s, lo) && PctAtMost(s, hi)
    ensures Share(lo, hi, WireBits(s), LinkBits(s))
  {
    PctIsShare(s);
    Scaled(lo, RateOf(s).value.pct, LinkBits(s));
    Scaled(RateOf(s).value.pct, hi, LinkBits(s));
  }

  lemma {:induction false} SharesBounded(ss: seq<Snapshot>, lo: real, hi: real)
    requires AllBetween(ss, lo, hi)
    ensures Share(lo, hi, RatedWire(ss), RatedLink(ss))
    decreases |ss|
  {
    if ss != [] {
      var init, s := ss[..|ss| - 1], ss[|ss| - 1];
      assert forall i :: 0 <= i < |init| ==> init[i] == ss[i];
      SharesBounded(init, lo, hi);
      if Rated(s) {
        PctWithin(s, lo, hi);
        SharesAdd(lo, hi, RatedWire(init), RatedLink(init), WireBits(s), LinkBits(s));
      }
    }
  }

  /** The percentage of `s`, taken of `link`, is between `lo` and `hi` percent of `part`. */
  ghost predicate PctOfPart(s: Snapshot, link: real, lo: real, hi: real, part: real) {
    Rated(s) && lo * part <= RateOf(s).value.pct * link <= hi * part
  }

  lemma BoundsOf(m: Snapshot, w: real, l: real, x: real, y: real, lo: real, hi: real)
    requires Reports(m, w + x, l + y) && l > 0.0 && w > 0.0 && x >= 0.0 && y >= 0.0 && Share(lo, hi, w, l)
    ensures x == 0.0 ==> PctOfPart(m, l + y, lo, hi, l) && PctAtMost(m, hi)
    ensures y == 0.0 ==> PctAtLeast(m, lo)
    ensures x == 0.0 && lo == hi ==> (PctAtLeast(m, lo) <==> y == 0.0)
  {
    var pct := RateOf(m).value.pct;
    Scaled(lo, pct, l + y);
    Scaled(pct, hi, l + y);
    Spread(hi, l, y);
    Spread(lo, l, y);
    if hi <= 0.0 { NotPositive(hi, l); }
    if y > 0.0 { PositiveProduct(hi, y); }
  }

  /** If all percentages are between `lo` and `hi`, then with strays aside the merged one is
      between these bounds times the rated part of the links; without unrated links it is at
      least `lo`, and without strays at most `hi`. */
  lemma MergedBetween(ss: seq<Snapshot>, lo: real, hi: real)
    requires AllMeasured(ss) && SomeRated(ss) && AllBetween(ss, lo, hi)
    ensures CountedAreRated(ss) ==> PctOfPart(Merge(ss), TotalLink(ss), lo, hi, RatedLink(ss)) && PctAtMost(Merge(ss), hi)
    ensures LinkedAreRated(ss) ==> PctAtLeast(Merge(ss), lo)
  {
    MergedParts(ss);
    MeanNotNegative(ss);
    OddParts(ss, Mean(ss));
    Parts(ss, Mean(ss));
    SharesBounded(ss, lo, hi);
    BoundsOf(Merge(ss), RatedWire(ss), RatedLink(ss), OddWire(ss, Mean(ss)), OddLink(ss), lo, hi);
  }

  /** If all NICs that report a percentage report the same one, the merge reports it in
      proportion to their part of the links: as it is exactly if there are no others. */
  lemma EqualSharesIff(ss: seq<Snapshot>, p: real)
    requires AllMeasured(ss) && SomeRated(ss) && AllBetween(ss, p, p) && CountedAreRated(ss)
    ensures TotalLink(ss) > 0.0 && PctOfPart(Merge(ss), TotalLink(ss), p, p, RatedLink(ss))
    ensures PctAtMost(Merge(ss), p) && (PctAtLeast(Merge(ss), p) <==> LinkedAreRated(ss))
  {
    MergedBetween(ss, p, p);
    MergedParts(ss);
    Parts(ss, 0.0);
    MeanNotNegative(ss);
    OddParts(ss, Mean(ss));
    SharesBounded(ss, p, p);
    BoundsOf(Merge(ss), RatedWire(ss), RatedLink(ss), OddWire(ss, Mean(ss)), OddLink(ss), p, p);
  }

  ghost predicate WireBound(s: Snapshot) {
    Rated(s) && RateOf(s).value.wireBound
  }

  ghost function MaxPct(ss: seq<Snapshot>): (m: real)
    ensures forall i :: 0 <= i < |ss| && Rated(ss[i]) ==> RateOf(ss[i]).value.pct <= m
  {
    if ss == [] then 0.0
    else
      var m, r := MaxPct(ss[..|ss| - 1]), RateOf(ss[|ss| - 1]);
      if r.Some? && r.value.pct > m then r.value.pct else m
  }

  /** `p` percent of `part` is at least 90 percent of `link`. */
  ghost predicate Saturates(p: real, part: real, link: real) {
    90.0 * link <= p * part
  }

  lemma BoundOf(m: Snapshot, link: real, lo: real, hi: real, part: real)
    requires PctOfPart(m, link, lo, hi, part) && link > 0.0
    ensures Saturates(lo, part, link) ==> WireBound(m)
    ensures WireBound(m) ==> Saturates(hi, part, link)
  {
    Scaled(90.0, RateOf(m).value.pct, link);
  }

  /** With all percentages between `lo` and `hi`: the merge is wire-bound if `lo` percent of the
      rated links is 90 % of all of them, and only if `hi` percent is. For NICs that report
      the same percentage that is an exact condition. */
  lemma WireBoundIff(ss: seq<Snapshot>, lo: real, hi: real)
    requires AllMeasured(ss) && SomeRated(ss) && AllBetween(ss, lo, hi) && CountedAreRated(ss)
    ensures Saturates(lo, RatedLink(ss), TotalLink(ss)) ==> WireBound(Merge(ss))
    ensures WireBound(Merge(ss)) ==> Saturates(hi, RatedLink(ss), TotalLink(ss))
  {
    MergedBetween(ss, lo, hi);
    MergedParts(ss);
    MergedShare(ss);
    BoundOf(Merge(ss), TotalLink(ss), lo, hi, RatedLink(ss));
  }

  /** If every NIC that reports a percentage is wire-bound, so is the merge, as long as every
      known link is one of theirs. */
  lemma MergedWireBound(ss: seq<Snapshot>)
    requires AllMeasured(ss) && SomeRated(ss) && LinkedAreRated(ss)
    requires forall i :: 0 <= i < |ss| && Rated(ss[i]) ==> WireBound(ss[i])
    ensures WireBound(Merge(ss))
  {
    var hi := MaxPct(ss);
    forall i | 0 <= i < |ss| && Rated(ss[i]) ensures PctAtLeast(ss[i], 90.0) && PctAtMost(ss[i], hi) {
      assert WireBound(ss[i]);
    }
    MergedBetween(ss, 90.0, hi);
  }

  // ---- Totals over several NICs ------------------------------------------------------------

  /** One NIC more adds its counts and its link, and its rate if it has one. */
  lemma MergedTotals(ss: seq<Snapshot>, s: Snapshot)
    requires ss != []
    ensures var m, n := Merge(ss), Merge(ss + [s]);
      && n.sent == m.sent + s.sent && n.completed == m.completed + s.completed && n.lost == m.lost + s.lost
      && Or0(n.rxQps) == Or0(m.rxQps) + Or0(s.rxQps) && LinkBits(n) == LinkBits(m) + LinkBits(s)
      && n.runTime == if s.runTime > m.runTime then s.runTime else m.runTime
  {
    assert (ss + [s])[..|ss|] == ss;
  }

  /** The merged round-trip rate is all completions over the longest run. */
  lemma MergedRate(ss: seq<Snapshot>)
    requires Merge(ss).runTime > 0.0
    ensures Merge(ss).avgQps * Merge(ss).runTime == Merge(ss).completed as real
  {
  }

  // ---- Loss over several NICs --------------------------------------------------------------------

  /** Each snapshot's loss is sent minus completed, at least 0, so over several NICs the
      totals satisfy sent = completed + lost exactly when no NIC has completed more than
      it sent: a surplus on one NIC does not cancel a loss on another. */
  lemma {:induction false} MergedLossIff(ss: seq<Snapshot>)
    requires forall i :: 0 <= i < |ss| ==> ss[i].lost == SatSub(ss[i].sent, ss[i].completed)
    ensures Merge(ss).sent <= Merge(ss).completed + Merge(ss).lost
    ensures Merge(ss).sent == Merge(ss).completed + Merge(ss).lost
      <==> forall i :: 0 <= i < |ss| ==> ss[i].completed <= ss[i].sent
    decreases |ss|
  {
    if ss != [] {
      var init, s := ss[..|ss| - 1], ss[|ss| - 1];
      MergedLossIff(init);
      assert forall i :: 0 <= i < |ss| ==> ss[i] == if i < |init| then init[i] else s;
    }
  }
}
