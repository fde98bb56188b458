/** Readers that know nothing of the builders: one that takes an Ethernet frame apart field by
    field, one that takes a DNS message apart, and how the three reply paths read the same
    datagram. What dnsmark writes and reads is stated through them. */
module Readers {
  import opened Machine
  import opened Bytes
  import opened Checksum
  import opened Frame
  import opened Wire
  import opened Parser
  import Stats
  import Sharded
  import ClosedLoop

  // ---- Frames -----------------------------------------------------------------------------

  datatype Link = Link(dst: seq<Byte>, src: seq<Byte>, vlan: Option<nat>, ethType: nat)

  datatype Network = Network(
    version: nat, headerWords: nat, total: nat, dontFragment: bool, ttl: nat, protocol: nat, src: seq<Byte>, dst: seq<Byte>)

  datatype Transport = Transport(srcPort: nat, dstPort: nat, len: nat, checksum: nat)

  /** An Ethernet header with at most one 802.1Q tag. */
  ghost function ReadLink(f: seq<Byte>): Link
    requires |f| >= 18
  {
    if Word(f[12], f[13]) == 0x8100
    then Link(f[0..6], f[6..12], Some(Word(f[14], f[15]) % 4096), Word(f[16], f[17]))
    else Link(f[0..6], f[6..12], None, Word(f[12], f[13]))
  }

  /** An IPv4 header at `at` (section 3.1 of RFC 791). */
  ghost function ReadNetwork(f: seq<Byte>, at: nat): Network
    requires |f| >= at + 20
  {
    Network(f[at] / 16, f[at] % 16, Word(f[at + 2], f[at + 3]), f[at + 6] / 64 % 2 == 1, f[at + 8], f[at + 9],
            f[at + 12..at + 16], f[at + 16..at + 20])
  }

  /** A UDP header at `at`. */
  ghost function ReadTransport(f: seq<Byte>, at: nat): Transport
    requires |f| >= at + 8
  {
    Transport(Word(f[at], f[at + 1]), Word(f[at + 2], f[at + 3]), Word(f[at + 4], f[at + 5]), Word(f[at + 6], f[at + 7]))
  }

  lemma LinkReadBack(r: Route, rest: seq<Byte>)
    requires |rest| >= 4
    ensures ReadLink(EthHeader(r) + rest) ==
      Link(r.dstMac, r.srcMac, if r.vlan.Some? then Some(r.vlan.value % 4096) else None, 0x0800)
  {
    var f := EthHeader(r) + rest;
    assert f[0..6] == r.dstMac && f[6..12] == r.srcMac;
    if r.vlan.Some? {
      var vid := r.vlan.value % 4096;
      TagReads(vid);
      assert f[12..18] == [0x81, 0x00, Hi(vid), Lo(vid), 0x08, 0x00];
      SixBytes(f, f[12..18]);
    } else {
      assert f[12] == 0x08 && f[13] == 0x00;
    }
  }

  lemma TagReads(vid: U16)
    requires vid < 4096
    ensures Word(Hi(vid), Lo(vid)) % 4096 == vid
  {
    WordHiLo(vid);
  }

  lemma SixBytes(f: seq<Byte>, t: seq<Byte>)
    requires |f| >= 18 && t == f[12..18]
    ensures forall i :: 0 <= i < 6 ==> f[12 + i] == t[i]
    ensures f[12] == t[0] && f[13] == t[1] && f[14] == t[2] && f[15] == t[3] && f[16] == t[4] && f[17] == t[5]
  {
  }

  lemma NetworkReadBack(r: Route, total: U16, checksum: U16, front: seq<Byte>, rest: seq<Byte>)
    ensures ReadNetwork(front + IpHeader(r, total, checksum) + rest, |front|) ==
      Network(4, 5, total, true, 64, 17, r.srcIp, r.dstIp)
  {
    var f, at := front + IpHeader(r, total, checksum) + rest, |front|;
    assert f[at..at + 20] == IpHeader(r, total, checksum);
    assert f[at + 12..at + 16] == f[at..at + 20][12..16] == r.srcIp;
    assert f[at + 16..at + 20] == f[at..at + 20][16..20] == r.dstIp;
    WordHiLo(total);
  }

  lemma TransportReadBack(r: Route, len: U16, front: seq<Byte>, rest: seq<Byte>)
    ensures ReadTransport(front + UdpHeader(r, len) + rest, |front|) == Transport(r.srcPort, r.dstPort, len, 0)
  {
    WordHiLo(r.srcPort);
    WordHiLo(r.dstPort);
    WordHiLo(len);
  }

  /** Every field of an emitted frame is where a receiver looks for it: both MAC addresses,
      the VLAN id, both IP addresses, both ports, the lengths, and the payload. */
  lemma FrameReadBack(r: Route, dns: seq<Byte>)
    ensures var f, l2 := FrameFor(r, dns), L2Len(r);
      && ReadLink(f) == Link(r.dstMac, r.srcMac, if r.vlan.Some? then Some(r.vlan.value % 4096) else None, 0x0800)
      && ReadNetwork(f, l2) == Network(4, 5, IpTotal(|dns|), true, 64, 17, r.srcIp, r.dstIp)
      && ReadTransport(f, l2 + 20) == Transport(r.srcPort, r.dstPort, UdpLen(|dns|), 0)
      && f[l2 + 28..] == dns
  {
    var total := IpTotal(|dns|);
    var eth, ip := EthHeader(r), IpHeader(r, total, ChecksumOf(IpHeader(r, total, 0)));
    var udp := UdpHeader(r, UdpLen(|dns|));
    var f := FrameFor(r, dns);
    assert f == eth + (ip + udp + dns);
    LinkReadBack(r, ip + udp + dns);
    assert f == eth + ip + (udp + dns);
    NetworkReadBack(r, total, ChecksumOf(IpHeader(r, total, 0)), eth, udp + dns);
    assert f == (eth + ip) + udp + dns;
    TransportReadBack(r, UdpLen(|dns|), eth + ip, dns);
  }

  // ---- DNS messages -------------------------------------------------------------------------

  /** The header of a message (section 4.1.1 of RFC 1035). */
  datatype MessageHeader = MessageHeader(
    id: nat, flags: MessageFlags, questions: nat, answers: nat, authorities: nat, additionals: nat)

  datatype MessageFlags = MessageFlags(
    response: bool, opcode: nat, authoritative: bool, truncated: bool, recursionDesired: bool,
    recursionAvailable: bool, reserved: nat, rcode: nat)

  ghost function ReadFlags(hi: Byte, lo: Byte): MessageFlags {
    MessageFlags(hi >= 128, hi / 8 % 16, hi / 4 % 2 == 1, hi / 2 % 2 == 1, hi % 2 == 1, lo >= 128, lo / 16 % 8, lo % 16)
  }

  ghost function ReadHeader(b: seq<Byte>): MessageHeader
    requires |b| >= 12
  {
    MessageHeader(Word(b[0], b[1]), ReadFlags(b[2], b[3]),
                  Word(b[4], b[5]), Word(b[6], b[7]), Word(b[8], b[9]), Word(b[10], b[11]))
  }

  /** The question after it (section 4.1.2): name, type, class, and what follows. */
  ghost function ReadQuestion(b: seq<Byte>): Option<(seq<Label>, nat, nat, seq<Byte>)>
    requires |b| >= 12
  {
    match Decode(b[12..])
    case None => None
    case Some((ls, q)) => if |q| < 4 then None else Some((ls, Word(q[0], q[1]), Word(q[2], q[3]), q[4..]))
  }

  /** A query as it reads on the wire: recursion desired and no other flag, one question and
      no other records, and, exactly if every label is legal, the labels of the name, the
      type asked for, class IN, and nothing after that. */
  lemma QueryReadBack(id: U16, name: seq<Byte>, qtype: U16)
    ensures |Query(id, name, qtype)| >= 12
    ensures ReadHeader(Query(id, name, qtype)) ==
      MessageHeader(id, MessageFlags(false, 0, false, false, true, false, 0, 0), 1, 0, 0, 0)
    ensures ReadQuestion(Query(id, name, qtype)) == Some((Labels(name), qtype as nat, 1, [])) <==> LegalLabels(Labels(name))
  {
    var b := Query(id, name, qtype);
    QueryParts(id, name, qtype);
    HeaderReads(b, id);
    WordHiLo(qtype);
    DecodeEncodeIff(Labels(name), Question(qtype));
    DecodedLegal(b[12..]);
    assert Question(qtype)[4..] == [];
  }

  lemma HeaderReads(b: seq<Byte>, id: U16)
    requires |b| >= 12 && b[..12] == Header(id)
    ensures ReadHeader(b) == MessageHeader(id, MessageFlags(false, 0, false, false, true, false, 0, 0), 1, 0, 0, 0)
  {
    WordHiLo(id);
    assert forall i :: 0 <= i < 12 ==> b[i] == Header(id)[i];
  }

  /** The decoder only ever yields legal labels. */
  lemma {:induction false} DecodedLegal(b: seq<Byte>)
    ensures Decode(b).Some? ==> LegalLabels(Decode(b).value.0)
    decreases |b|
  {
    if b != [] && 0 < b[0] <= 63 && |b| >= 1 + b[0] {
      DecodedLegal(b[1 + b[0]..]);
    }
  }

  // ---- Names ----------------------------------------------------------------------------------

  /** The labels with a dot between each two. */
  ghost function Joined(ls: seq<Label>): seq<Byte> {
    if ls == [] then [] else if |ls| == 1 then ls[0] else Joined(ls[..|ls| - 1]) + [DOT] + ls[|ls| - 1]
  }

  predicate Plain(l: Label) {
    l != [] && DOT !in l
  }

  lemma {:induction false} OneLabel(l: Label)
    requires DOT !in l
    ensures Split(l) == [l]
    decreases |l|
  {
    if l != [] {
      assert l[0] in l && forall x <- l[1..] :: x in l;
      OneLabel(l[1..]);
      assert [l[0]] + l[1..] == l;
    }
  }

  lemma PlainLabel(l: Label)
    requires Plain(l)
    ensures Labels(l) == [l]
  {
    TrimmingIsIdle(l);
    OneLabel(l);
    var one: seq<Label> := [l];
    assert one[..0] == [] && one[0] == l;
    assert NonEmpty(one) == NonEmpty(one[..0]) + [l];
  }

  /** A name made of labels has exactly those labels, with or without a dot at the end. */
  lemma {:induction false} NameReadBack(ls: seq<Label>)
    requires forall i :: 0 <= i < |ls| ==> Plain(ls[i])
    ensures Labels(Joined(ls)) == ls && Labels(Joined(ls) + [DOT]) == ls
    decreases |ls|
  {
    EdgeDots(Joined(ls));
    if ls == [] {
      NoParts();
      TrimmingIsIdle([]);
    } else if |ls| == 1 {
      PlainLabel(ls[0]);
    } else {
      var init, l := ls[..|ls| - 1], ls[|ls| - 1];
      NameReadBack(init);
      PlainLabel(l);
      LabelsAtDot(Joined(init), l);
      assert init + [l] == ls;
    }
  }

  // ---- Replies ----------------------------------------------------------------------------------

  /** A reply that repeats the id of a query is read as one to that query, with its rcode,
      from the bare message and from a frame around it. */
  lemma ReplyToQuery(id: U16, name: seq<Byte>, qtype: U16, r: Route, b: seq<Byte>, rcode: nat)
    requires |b| >= 12 && b[..2] == Query(id, name, qtype)[..2] && b[2] >= 128 && b[3] % 16 == rcode
    ensures ParseResponse(b) == Some(Response(id, rcode))
    ensures ParseDnsFromFrame(FrameFor(r, b)) == Some(Response(id, rcode))
  {
    QueryParts(id, name, qtype);
    assert b[0] == b[..2][0] == Query(id, name, qtype)[..12][0] == Hi(id);
    assert b[1] == b[..2][1] == Query(id, name, qtype)[..12][1] == Lo(id);
    ReplyRoundTrip(r, b, id, rcode);
  }

  /** The three paths read the same off one reply: the flood receiver and the XDP worker count
      it under its rcode ... */
  lemma CountedUnder(r: Route, b: seq<Byte>, id: U16, rcode: nat)
    requires IsReply(b, id, rcode)
    ensures Sharded.UdpCode(b) == rcode && Sharded.XdpCodes([FrameFor(r, b)]) == [rcode]
  {
    ReplyRoundTrip(r, b, id, rcode);
    var one: seq<seq<Byte>> := [FrameFor(r, b)];
    assert one[..0] == [] && one[0] == FrameFor(r, b);
    assert Sharded.XdpCodes(one[..0]) == [];
  }

  /** ... and the closed loop frees the slot of its id and counts the same. */
  lemma BookedUnder(b: seq<Byte>, id: U16, rcode: nat, es: seq<nat>, c: Stats.Counters, recvNs: nat, timeoutNs: nat)
    requires IsReply(b, id, rcode) && |es| == 65536
    ensures ClosedLoop.Book(es, c, b, recvNs, timeoutNs) ==
      if es[id] == 0 then (es, c)
      else (es[id := 0], ClosedLoop.Matched(c, rcode, SatSub(recvNs, es[id]), timeoutNs))
  {
    WordHiLo(id);
    assert (b[0] as nat) * 256 + (b[1] as nat) == id;
  }
}
