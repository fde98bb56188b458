/** DNS queries on the wire: the simple builder (src/dns/mod.rs) and the pool of pre-built
    templates (src/query/wire.rs) that must agree with it. Names are their UTF-8 bytes. */
module Wire {
  import opened Machine
  import opened Bytes
  import opened Frame
  import opened Parser
  import Umem

  const DOT: Byte := 46
  const MAX_QUERY: nat := 512
  const FRAME_SIZE: nat := Umem.FRAME_SIZE

  type Label = seq<Byte>

  // ---- Names ------------------------------------------------------------------------

  /** `trim_end_matches('.')`. */
  function TrimEnd(s: seq<Byte>): seq<Byte> {
    if s != [] && s[|s| - 1] == DOT then TrimEnd(s[..|s| - 1]) else s
  }

  /** `split('.')`: one piece more than there are dots, empty pieces included. */
  function Split(s: seq<Byte>): (r: seq<Label>)
    ensures r != []
  {
    if s == [] then [[]]
    else
      var r := Split(s[1..]);
      if s[0] == DOT then [[]] + r else [[s[0]] + r[0]] + r[1..]
  }

  /** The pieces the builders do not skip. */
  function NonEmpty(ls: seq<Label>): (r: seq<Label>)
    ensures forall i :: 0 <= i < |r| ==> r[i] != []
  {
    if ls == [] then []
    else if ls[|ls| - 1] == [] then NonEmpty(ls[..|ls| - 1])
    else NonEmpty(ls[..|ls| - 1]) + [ls[|ls| - 1]]
  }

  function Labels(name: seq<Byte>): seq<Label> {
    NonEmpty(Split(TrimEnd(name)))
  }

  // ---- The message (sections 4.1.1 and 4.1.2 of RFC 1035) ------------------------------------

  /** Length byte (`len() as u8`) and bytes of each label. */
  function Encode(ls: seq<Label>): seq<Byte> {
    if ls == [] then [] else Encode(ls[..|ls| - 1]) + [Lo(|ls[|ls| - 1]|)] + ls[|ls| - 1]
  }

  /** A standard query with recursion desired: one question, class IN. */
  function Query(id: U16, name: seq<Byte>, qtype: U16): seq<Byte> {
    Header(id) + Encode(Labels(name)) + ([0] + Question(qtype))
  }

  function Header(id: U16): (h: seq<Byte>)
    ensures |h| == 12
  {
    [Hi(id), Lo(id), 1, 0, 0, 1, 0, 0, 0, 0, 0, 0]
  }

  function Question(qtype: U16): (q: seq<Byte>)
    ensures |q| == 4
  {
    [Hi(qtype), Lo(qtype), 0, 1]
  }

  lemma NonEmptySnoc(ls: seq<Label>, i: nat)
    requires i < |ls|
    ensures NonEmpty(ls[..i + 1]) == if ls[i] == [] then NonEmpty(ls[..i]) else NonEmpty(ls[..i]) + [ls[i]]
  {
    assert ls[..i + 1][..i] == ls[..i];
  }

  lemma EncodeSnoc(ls: seq<Label>, l: Label)
    ensures Encode(ls + [l]) == Encode(ls) + [Lo(|l|)] + l
  {
    assert (ls + [l])[..|ls|] == ls;
  }

  /** Two queries for the same question differ in the id bytes only. */
  lemma PatchedQuery(id: U16, name: seq<Byte>, qtype: U16)
    ensures |Query(0, name, qtype)| >= 17
    ensures Query(0, name, qtype)[0 := Hi(id)][1 := Lo(id)] == Query(id, name, qtype)
  {
    assert Header(0)[0 := Hi(id)][1 := Lo(id)] == Header(id);
  }

  /** The label loop of both builders. */
  method AppendLabels(head: seq<Byte>, name: seq<Byte>) returns (buf: seq<Byte>)
    ensures buf == head + Encode(Labels(name))
  {
    buf := head;
    var pieces := Split(TrimEnd(name));
    assert pieces[..0] == [];
    for i := 0 to |pieces|
      invariant buf == head + Encode(NonEmpty(pieces[..i]))
    {
      NonEmptySnoc(pieces, i);
      if pieces[i] != [] {
        ghost var done := Encode(NonEmpty(pieces[..i]));
        EncodeSnoc(NonEmpty(pieces[..i]), pieces[i]);
        Assoc(head, done, [Lo(|pieces[i]|)], pieces[i]);
        buf := buf + [Lo(|pieces[i]|)] + pieces[i];
      }
    }
    assert pieces[..|pieces|] == pieces;
  }

  /** `build_query`. */
  method BuildQuery(id: U16, name: seq<Byte>, qtype: U16) returns (buf: seq<Byte>)
    ensures buf == Query(id, name, qtype)
  {
    buf := [Hi(id), Lo(id)];
    buf := buf + [1, 0];
    buf := buf + [0, 1];
    buf := buf + [0, 0] + [0, 0] + [0, 0];
    assert buf == Header(id);
    buf := AppendLabels(buf, name);
    ghost var front := buf;
    buf := buf + [0];
    buf := buf + [Hi(qtype), Lo(qtype)];
    buf := buf + [0, 1];
    assert buf == front + ([0] + Question(qtype));
  }

  /** `build_wire_template`: the same message with id 0. */
  method BuildWireTemplate(name: seq<Byte>, qtype: U16) returns (buf: seq<Byte>)
    ensures buf == Query(0, name, qtype)
  {
    buf := [0, 0];
    buf := buf + [1, 0] + [0, 1];
    buf := buf + [0, 0, 0, 0, 0, 0];
    assert buf == Header(0);
    buf := AppendLabels(buf, name);
    ghost var front := buf;
    buf := buf + [0];
    buf := buf + [Hi(qtype), Lo(qtype)] + [0, 1];
    assert buf == front + ([0] + Question(qtype));
  }

  datatype Entry = Entry(name: seq<Byte>, qtype: U16)

  class WireQueryPool {
    const templates: seq<seq<Byte>>
    ghost const entries: seq<Entry>

    ghost predicate Valid() {
      && templates != [] && |templates| == |entries|
      && forall i :: 0 <= i < |templates| ==> templates[i] == Query(0, entries[i].name, entries[i].qtype)
    }

    /** An empty entry list panics. */
    constructor FromPairs(es: seq<Entry>)
      requires es != []
      ensures Valid() && entries == es
    {
      var ts: seq<seq<Byte>> := [];
      for i := 0 to |es|
        invariant |ts| == i && forall k :: 0 <= k < i ==> ts[k] == Query(0, es[k].name, es[k].qtype)
      {
        var t := BuildWireTemplate(es[i].name, es[i].qtype);
        ts := ts + [t];
      }
      templates := ts;
      entries := es;
    }

    /** Copies the template at the caller's cursor, modulo the pool size, to the front of
        `buf[off..]` and patches the id: exactly what the simple builder makes for that
        entry. A buffer that is too small panics. */
    method WriteWithIndex(localIdx: nat, id: U16, buf: array<Byte>, off: nat) returns (len: nat)
      requires Valid()
      requires off + |templates[localIdx % |templates|]| <= buf.Length
      modifies buf
      ensures len == |templates[localIdx % |templates|]| && off + len <= buf.Length
      ensures var e := entries[localIdx % |entries|];
        buf[..] == old(buf[..off]) + Query(id, e.name, e.qtype) + old(buf[off + len..])
    {
      var idx := localIdx % |templates|;
      var tmpl := templates[idx];
      len := |tmpl|;
      ghost var front, rest := buf[..off], buf[off + len..];
      ghost var e := entries[idx];
      PatchedQuery(id, e.name, e.qtype);
      CopyInto(buf, off, tmpl);
      PutWord(buf, off, id, front + tmpl, rest);
      assert (front + tmpl)[off := Hi(id)][off + 1 := Lo(id)] == front + tmpl[0 := Hi(id)][1 := Lo(id)];
    }
  }

  // ---- What a name means -----------------------------------------------------------------

  /** The labels of a name, without the trimming. */
  function Parts(s: seq<Byte>): seq<Label> {
    NonEmpty(Split(s))
  }

  lemma {:induction false} NonEmptyConcat(a: seq<Label>, b: seq<Label>)
    ensures NonEmpty(a + b) == NonEmpty(a) + NonEmpty(b)
    decreases |b|
  {
    if b == [] {
      assert a + b == a;
    } else {
      assert (a + b)[..|a + b| - 1] == a + b[..|b| - 1];
      NonEmptyConcat(a, b[..|b| - 1]);
    }
  }

  lemma {:induction false} SplitAtDot(a: seq<Byte>, b: seq<Byte>)
    ensures Split(a + [DOT] + b) == Split(a) + Split(b)
    decreases |a|
  {
    var s := a + [DOT] + b;
    if a == [] {
      assert s == [DOT] + b && s[1..] == b;
    } else {
      assert s[1..] == a[1..] + [DOT] + b;
      SplitAtDot(a[1..], b);
    }
  }

  /** A dot only separates: the labels are those before it and those after it. */
  lemma DotSeparates(a: seq<Byte>, b: seq<Byte>)
    ensures Parts(a + [DOT] + b) == Parts(a) + Parts(b)
  {
    SplitAtDot(a, b);
    NonEmptyConcat(Split(a), Split(b));
  }

  lemma NoParts()
    ensures Parts([]) == []
  {
    var one: seq<Label> := [[]];
    assert one[..0] == [];
  }

  /** So trimming trailing dots changes nothing. */
  lemma {:induction false} TrimmingIsIdle(s: seq<Byte>)
    ensures Labels(s) == Parts(s)
    decreases |s|
  {
    if s != [] && s[|s| - 1] == DOT {
      var t := s[..|s| - 1];
      TrimmingIsIdle(t);
      DotSeparates(t, []);
      NoParts();
      assert s == t + [DOT] + [];
    }
  }

  /** The same of the labels that are encoded. */
  lemma LabelsAtDot(a: seq<Byte>, b: seq<Byte>)
    ensures Labels(a + [DOT] + b) == Labels(a) + Labels(b)
  {
    DotSeparates(a, b);
    TrimmingIsIdle(a + [DOT] + b);
    TrimmingIsIdle(a);
    TrimmingIsIdle(b);
  }

  lemma EdgeDots(b: seq<Byte>)
    ensures Labels([DOT] + b) == Labels(b) == Labels(b + [DOT])
  {
    NoParts();
    TrimmingIsIdle([]);
    LabelsAtDot([], b);
    LabelsAtDot(b, []);
    assert [] + [DOT] + b == [DOT] + b;
    assert b + [DOT] + [] == b + [DOT];
  }

  /** So extra dots anywhere, leading, trailing or doubled, are ignored. */
  lemma ExtraDotsIgnored(id: U16, a: seq<Byte>, b: seq<Byte>, qtype: U16)
    ensures Query(id, a + [DOT] + ([DOT] + b), qtype) == Query(id, a + [DOT] + b, qtype)
    ensures Query(id, [DOT] + b, qtype) == Query(id, b, qtype)
    ensures Query(id, b + [DOT], qtype) == Query(id, b, qtype)
  {
    EdgeDots(b);
    LabelsAtDot(a, [DOT] + b);
    LabelsAtDot(a, b);
  }

  // ---- Size -------------------------------------------------------------------------------

  ghost function Total(ls: seq<Label>): nat {
    if ls == [] then 0 else Total(ls[..|ls| - 1]) + |ls[|ls| - 1]| + 1
  }

  lemma {:induction false} EncodedSize(ls: seq<Label>)
    ensures |Encode(ls)| == Total(ls)
    decreases |ls|
  {
    if ls != [] { EncodedSize(ls[..|ls| - 1]); }
  }

  lemma {:induction false} FilterShrinks(ls: seq<Label>)
    ensures Total(NonEmpty(ls)) <= Total(ls)
    decreases |ls|
  {
    if ls != [] {
      FilterShrinks(ls[..|ls| - 1]);
      var r := NonEmpty(ls);
      if ls[|ls| - 1] != [] {
        assert r[..|r| - 1] == NonEmpty(ls[..|ls| - 1]);
      }
    }
  }

  lemma {:induction false} TotalConcat(a: seq<Label>, b: seq<Label>)
    ensures Total(a + b) == Total(a) + Total(b)
    decreases |b|
  {
    if b == [] {
      assert a + b == a;
    } else {
      assert (a + b)[..|a + b| - 1] == a + b[..|b| - 1];
      TotalConcat(a, b[..|b| - 1]);
    }
  }

  lemma TotalOne(l: Label)
    ensures Total([l]) == |l| + 1
  {
    assert [l][..0] == [];
  }

  lemma {:induction false} SplitTotal(s: seq<Byte>)
    ensures Total(Split(s)) == |s| + 1
    decreases |s|
  {
    if s == [] {
      TotalOne([]);
    } else {
      SplitTotal(s[1..]);
      var r := Split(s[1..]);
      if s[0] == DOT {
        TotalConcat([[]], r);
        TotalOne([]);
      } else {
        assert r == [r[0]] + r[1..];
        TotalConcat([r[0]], r[1..]);
        TotalConcat([[s[0]] + r[0]], r[1..]);
        TotalOne(r[0]);
        TotalOne([s[0]] + r[0]);
      }
    }
  }

  /** A query is at most 18 bytes longer than its name, so every legal name (up to 253
      bytes) fits the 512-byte buffers. */
  lemma QueryFits(id: U16, name: seq<Byte>, qtype: U16)
    ensures |Query(id, name, qtype)| <= |name| + 18
    ensures |name| <= 253 ==> |Query(id, name, qtype)| <= MAX_QUERY
  {
    TrimmingIsIdle(name);
    EncodedSize(Labels(name));
    FilterShrinks(Split(name));
    SplitTotal(name);
  }

  // ---- Decoding ------------------------------------------------------------------------------

  /** A QNAME decoder: labels of 1 to 63 bytes up to the root label (sections 2.3.4 and
      4.1.2 of RFC 1035), with what follows the name. */
  function Decode(b: seq<Byte>): Option<(seq<Label>, seq<Byte>)>
    decreases |b|
  {
    if b == [] then None
    else if b[0] == 0 then Some(([], b[1..]))
    else if b[0] > 63 || |b| < 1 + b[0] then None
    else Prepended(b[1..1 + b[0]], Decode(b[1 + b[0]..]))
  }

  predicate LegalLabels(ls: seq<Label>) {
    forall i :: 0 <= i < |ls| ==> |ls[i]| <= 63
  }

  lemma {:induction false} EncodeHead(ls: seq<Label>)
    requires ls != []
    ensures Encode(ls) == [Lo(|ls[0]|)] + ls[0] + Encode(ls[1..])
    decreases |ls|
  {
    if |ls| == 1 {
      assert ls[..0] == [] && ls[1..] == [];
      assert Encode(ls) == [] + [Lo(|ls[0]|)] + ls[0];
    } else {
      var n := |ls| - 1;
      EncodeHead(ls[..n]);
      assert ls[..n][1..] == ls[1..][..n - 1];
      Assoc([Lo(|ls[0]|)] + ls[0], Encode(ls[1..][..n - 1]), [Lo(|ls[n]|)], ls[n]);
    }
  }

  function Prepended(l: Label, d: Option<(seq<Label>, seq<Byte>)>): Option<(seq<Label>, seq<Byte>)> {
    match d
    case None => None
    case Some((ls, rest)) => Some(([l] + ls, rest))
  }

  /** What the decoder makes of a label in front of `tail`: nothing usable unless it is
      between 1 and 63 bytes long, since only then does its length byte say so. */
  lemma DecodeOne(l: Label, tail: seq<Byte>)
    requires l != []
    ensures |l| <= 63 ==> Decode([Lo(|l|)] + l + tail) == Prepended(l, Decode(tail))
    ensures |l| > 63 && Decode([Lo(|l|)] + l + tail).Some? ==>
      var (ls, _) := Decode([Lo(|l|)] + l + tail).value; ls == [] || ls[0] != l
  {
  }

  /** Round trip: decoding an encoded list of non-empty labels gives back the list and
      what follows it exactly when every label is legal. */
  lemma {:induction false} DecodeEncodeIff(ls: seq<Label>, rest: seq<Byte>)
    requires forall i :: 0 <= i < |ls| ==> ls[i] != []
    ensures Decode(Encode(ls) + [0] + rest) == Some((ls, rest)) <==> LegalLabels(ls)
    decreases |ls|
  {
    var b := Encode(ls) + [0] + rest;
    if ls == [] {
      assert b == [0] + rest && b[1..] == rest;
    } else {
      var tail := Encode(ls[1..]) + [0] + rest;
      EncodeHead(ls);
      assert b == [Lo(|ls[0]|)] + ls[0] + tail;
      DecodeOne(ls[0], tail);
      DecodeEncodeIff(ls[1..], rest);
      assert ls == [ls[0]] + ls[1..];
      LegalHead(ls);
    }
  }

  lemma LegalHead(ls: seq<Label>)
    requires ls != []
    ensures LegalLabels(ls) <==> |ls[0]| <= 63 && LegalLabels(ls[1..])
  {
  }

  /** The labels, type and id of a query can be read back off the wire, so on names with
      legal labels two queries are equal only if they ask the same thing. */
  lemma QueryInjective(id1: U16, n1: seq<Byte>, q1: U16, id2: U16, n2: seq<Byte>, q2: U16)
    requires LegalLabels(Labels(n1)) && LegalLabels(Labels(n2))
    ensures Query(id1, n1, q1) == Query(id2, n2, q2) <==> id1 == id2 && Labels(n1) == Labels(n2) && q1 == q2
  {
    if Query(id1, n1, q1) == Query(id2, n2, q2) {
      QueryParts(id1, n1, q1);
      QueryParts(id2, n2, q2);
      FieldsReadBack(id1, q1);
      FieldsReadBack(id2, q2);
      DecodeEncodeIff(Labels(n1), Question(q1));
      DecodeEncodeIff(Labels(n2), Question(q2));
    }
  }

  lemma FieldsReadBack(id: U16, qtype: U16)
    ensures Word(Header(id)[0], Header(id)[1]) == id && Word(Question(qtype)[0], Question(qtype)[1]) == qtype
  {
    WordHiLo(id);
    WordHiLo(qtype);
  }

  lemma QueryParts(id: U16, name: seq<Byte>, qtype: U16)
    ensures Query(id, name, qtype)[..12] == Header(id)
    ensures Query(id, name, qtype)[12..] == Encode(Labels(name)) + [0] + Question(qtype)
  {
  }

  /** Generated queries never look like responses, bare or in a frame. */
  lemma QueriesAreNotResponses(id: U16, name: seq<Byte>, qtype: U16, r: Route)
    ensures ParseResponse(Query(id, name, qtype)).None?
    ensures ParseDnsFromFrame(FrameFor(r, Query(id, name, qtype))).None?
  {
    var q := Query(id, name, qtype);
    QueryParts(id, name, qtype);
    assert q[2] == q[..12][2] == 1 && q[3] == q[..12][3] == 0;
    BuildThenParse(r, q);
  }

  // ---- One packet of the XDP worker ------------------------------------------------------------

  const SPORT_BASE: nat := 10_000
  const SPORT_SPREAD: nat := 2_048

  /** The query in place, the header stamped in front of it, the source port patched: the
      UMEM frame then holds exactly the frame of the simple builder's query, which neither
      the classifier nor the parser of the receive side takes for a reply. */
  method PrepareFrame(pool: WireQueryPool, hdr: FrameHeader, buf: array<Byte>, cursor: nat, id: U16, sportCtr: nat)
    returns (total: nat)
    requires pool.Valid() && hdr.Valid() && buf != hdr.tpl && buf.Length == FRAME_SIZE
    requires hdr.outer + |pool.templates[cursor % |pool.templates|]| <= FRAME_SIZE
    modifies buf
    ensures total <= FRAME_SIZE && buf[total..] == old(buf[total..])
    ensures var e := pool.entries[cursor % |pool.entries|];
      buf[..total] == FrameFor(hdr.route.(srcPort := SPORT_BASE + sportCtr % SPORT_SPREAD), Query(id, e.name, e.qtype))
    ensures Classify(buf[..total]) == Pass && ParseDnsFromFrame(buf[..total]).None?
  {
    ghost var e := pool.entries[cursor % |pool.entries|];
    ghost var query, rest := Query(id, e.name, e.qtype), buf[hdr.outer + |pool.templates[cursor % |pool.templates|]|..];
    PatchedQuery(id, e.name, e.qtype);
    var dnsLen := pool.WriteWithIndex(cursor, id, buf, hdr.outer);
    assert buf[hdr.outer..] == query + rest by { assert buf[hdr.outer..] == buf[..][hdr.outer..]; }
    total := hdr.WriteHeader(buf, dnsLen);
    assert buf[..] == FrameFor(hdr.route, query) + rest;
    assert buf[..total] == buf[..][..total] && buf[total..] == buf[..][total..];
    var sport := SPORT_BASE + sportCtr % SPORT_SPREAD;
    hdr.SetSrcPort(buf, sport, query);
    ghost var route := hdr.route.(srcPort := sport);
    OwnFramesPass(route, query);
    QueriesAreNotResponses(id, e.name, e.qtype, route);
  }
}
