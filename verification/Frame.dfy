/** The Ethernet(+802.1Q)+IPv4+UDP frame builder of the XDP TX path
    (src/transport/xdp/frame.rs): a header template built once, then copied and patched
    for every packet. */
module Frame {
  import opened Machine
  import opened Bytes
  import opened Checksum

  const IPV4_HDR: nat := 20
  const UDP_HDR: nat := 8
  const OUTER_HDR_MAX: nat := 46

  type Mac = s: seq<Byte> | |s| == 6 witness [0, 0, 0, 0, 0, 0]
  type Ip = s: seq<Byte> | |s| == 4 witness [0, 0, 0, 0]

  /** Everything a template depends on. */
  datatype Route = Route(srcMac: Mac, dstMac: Mac, srcIp: Ip, dstIp: Ip, srcPort: U16, dstPort: U16, vlan: Option<U16>)

  // ---- The wire layout, field by field ----------------------------------------------

  function L2Len(r: Route): nat {
    if r.vlan.Some? then 18 else 14
  }

  function OuterLen(r: Route): nat {
    L2Len(r) + IPV4_HDR + UDP_HDR
  }

  /** Ethernet header, with one 802.1Q tag (priority 0, 12-bit VLAN id) if asked for. */
  function EthHeader(r: Route): (h: seq<Byte>)
    ensures |h| == L2Len(r)
  {
    r.dstMac + r.srcMac +
    (match r.vlan
     case None => []
     case Some(vid) => [0x81, 0x00, Hi(vid % 4096), Lo(vid % 4096)]) +
    [0x08, 0x00]
  }

  /** IPv4 header without options: DF set, TTL 64, protocol UDP (section 3.1 of RFC 791). */
  function IpHeader(r: Route, total: U16, checksum: U16): (h: seq<Byte>)
    ensures |h| == IPV4_HDR
  {
    [0x45, 0, Hi(total), Lo(total), 0, 0, 0x40, 0, 64, 17, Hi(checksum), Lo(checksum)] + r.srcIp + r.dstIp
  }

  /** UDP header with the checksum left at 0 (not computed). */
  function UdpHeader(r: Route, len: U16): (h: seq<Byte>)
    ensures |h| == UDP_HDR
  {
    [Hi(r.srcPort), Lo(r.srcPort), Hi(r.dstPort), Lo(r.dstPort), Hi(len), Lo(len), 0, 0]
  }

  /** The two length fields, as the code's 16-bit casts leave them. */
  function UdpLen(dnsLen: nat): U16 {
    (UDP_HDR + dnsLen) % 65536
  }

  function IpTotal(dnsLen: nat): U16 {
    (IPV4_HDR + UdpLen(dnsLen)) % 65536
  }

  /** The header in front of a payload of `dnsLen` bytes, its IPv4 checksum being that
      of the header with a zero checksum field, by definition. */
  function HeaderFor(r: Route, dnsLen: nat): (h: seq<Byte>)
    ensures |h| == OuterLen(r)
  {
    var total := IpTotal(dnsLen);
    EthHeader(r) + IpHeader(r, total, ChecksumOf(IpHeader(r, total, 0))) + UdpHeader(r, UdpLen(dnsLen))
  }

  function FrameFor(r: Route, dns: seq<Byte>): (f: seq<Byte>)
    ensures |f| == OuterLen(r) + |dns|
  {
    HeaderFor(r, |dns|) + dns
  }

  /** Where the length fields are. */
  lemma LengthBytes(r: Route, dns: seq<Byte>)
    ensures var f, l2 := FrameFor(r, dns), L2Len(r);
      && f[l2 + 2] == Hi(IpTotal(|dns|)) && f[l2 + 3] == Lo(IpTotal(|dns|))
      && f[l2 + 24] == Hi(UdpLen(|dns|)) && f[l2 + 25] == Lo(UdpLen(|dns|))
  {
  }

  lemma LengthsExact(dnsLen: nat)
    ensures UdpLen(dnsLen) == UDP_HDR + dnsLen <==> UDP_HDR + dnsLen < 65536
    ensures IpTotal(dnsLen) == IPV4_HDR + UDP_HDR + dnsLen <==> IPV4_HDR + UDP_HDR + dnsLen < 65536
  {
  }

  /** The length fields say the true lengths exactly when those fit in 16 bits. */
  lemma LengthsRightIff(r: Route, dns: seq<Byte>)
    ensures var f, l2 := FrameFor(r, dns), L2Len(r);
      && (Word(f[l2 + 24], f[l2 + 25]) == UDP_HDR + |dns| <==> UDP_HDR + |dns| < 65536)
      && (Word(f[l2 + 2], f[l2 + 3]) == IPV4_HDR + UDP_HDR + |dns| <==> IPV4_HDR + UDP_HDR + |dns| < 65536)
  {
    LengthBytes(r, dns);
    LengthsExact(|dns|);
    WordHiLo(UdpLen(|dns|));
    WordHiLo(IpTotal(|dns|));
  }

  /** The template before any packet: lengths and checksum are zero. */
  function TemplateFor(r: Route): (h: seq<Byte>)
    ensures |h| == OuterLen(r)
  {
    EthHeader(r) + IpHeader(r, 0, 0) + UdpHeader(r, 0)
  }

  // ---- Checksums ------------------------------------------------------------------------

  /** The header's word sum is that of the template plus the two patched fields. */
  lemma HeaderSum(r: Route, total: U16, checksum: U16)
    ensures SumWords(IpHeader(r, total, checksum), 10) == SumWords(IpHeader(r, 0, 0), 10) + total + checksum
  {
    TenWords(IpHeader(r, total, checksum));
    TenWords(IpHeader(r, 0, 0));
    WordHiLo(total);
    WordHiLo(checksum);
  }

  lemma BaseSumBounds(r: Route)
    ensures 0x4500 <= SumWords(IpHeader(r, 0, 0), 10) <= 655350
  {
    TenWords(IpHeader(r, 0, 0));
  }

  /** The precomputed base plus the total length, folded exactly twice, is the full
      one's-complement checksum of the header. */
  lemma FastChecksum(r: Route, total: U16)
    ensures Fold(Fold(SumWords(IpHeader(r, 0, 0), 10) + total)) < 65536
    ensures 65535 - Fold(Fold(SumWords(IpHeader(r, 0, 0), 10) + total)) == ChecksumOf(IpHeader(r, total, 0))
  {
    BaseSumBounds(r);
    HeaderSum(r, total, 0);
    TwoFoldsSuffice(SumWords(IpHeader(r, 0, 0), 10) + total);
  }

  lemma HeaderVerifies(r: Route, total: U16)
    ensures ChecksumOf(IpHeader(r, total, ChecksumOf(IpHeader(r, total, 0)))) == 0
  {
    HeaderSum(r, total, 0);
    HeaderSum(r, total, ChecksumOf(IpHeader(r, total, 0)));
    BaseSumBounds(r);
    ChecksumCancels(SumWords(IpHeader(r, total, 0), 10));
  }

  /** A receiver that checksums the emitted IPv4 header gets 0. */
  lemma EmittedHeaderVerifies(r: Route, dnsLen: nat)
    ensures ChecksumOf(HeaderFor(r, dnsLen)[L2Len(r)..L2Len(r) + IPV4_HDR]) == 0
  {
    var total := IpTotal(dnsLen);
    var ck := ChecksumOf(IpHeader(r, total, 0));
    assert HeaderFor(r, dnsLen)[L2Len(r)..L2Len(r) + IPV4_HDR] == IpHeader(r, total, ck);
    HeaderVerifies(r, total);
  }

  // ---- The builder -------------------------------------------------------------------------

  /** `out[off..off + s.len()].copy_from_slice(s)`. */
  method CopyInto(out: array<Byte>, off: nat, s: seq<Byte>)
    requires off + |s| <= out.Length
    modifies out
    ensures out[..] == old(out[..off]) + s + old(out[off + |s|..])
  {
    for k := 0 to |s|
      invariant forall i :: 0 <= i < k ==> out[off + i] == s[i]
      invariant forall i :: 0 <= i < out.Length && !(off <= i < off + k) ==> out[i] == old(out[i])
    {
      out[off + k] := s[k];
    }
  }

  /** Writes a big-endian word over two bytes of `left`, the first part of `out`. */
  method PutWord(out: array<Byte>, at: nat, x: U16, ghost left: seq<Byte>, ghost right: seq<Byte>)
    requires out[..] == left + right && at + 1 < |left|
    modifies out
    ensures out[..] == left[at := Hi(x)][at + 1 := Lo(x)] + right
  {
    out[at], out[at + 1] := Hi(x), Lo(x);
  }

  function Zeros(n: nat): (z: seq<Byte>)
    ensures |z| == n
  {
    seq(n, _ => 0)
  }

  /** Writes `s` over the zeros after `front`. */
  method Append(tpl: array<Byte>, off: nat, s: seq<Byte>, ghost front: seq<Byte>)
    requires off == |front| && off + |s| <= tpl.Length && tpl[..] == front + Zeros(tpl.Length - off)
    modifies tpl
    ensures tpl[..] == front + s + Zeros(tpl.Length - off - |s|)
  {
    CopyInto(tpl, off, s);
  }

  lemma Assoc(a: seq<Byte>, b: seq<Byte>, c: seq<Byte>, d: seq<Byte>)
    ensures a + b + c + d == a + (b + c + d)
  {
  }

  lemma Middle(a: seq<Byte>, b: seq<Byte>, c: seq<Byte>, d: seq<Byte>)
    ensures (a + b + c + d)[|a|..|a| + |b|] == b
  {
  }

  method WriteEth(tpl: array<Byte>, r: Route)
    requires tpl.Length == OUTER_HDR_MAX && tpl[..] == Zeros(OUTER_HDR_MAX)
    modifies tpl
    ensures tpl[..] == EthHeader(r) + Zeros(OUTER_HDR_MAX - L2Len(r))
  {
    Append(tpl, 0, r.dstMac, []);
    assert [] + r.dstMac == r.dstMac;
    Append(tpl, 6, r.srcMac, r.dstMac);
    ghost var macs := r.dstMac + r.srcMac;
    match r.vlan
    case Some(vid) =>
      Append(tpl, 12, [0x81, 0x00], macs);
      Append(tpl, 14, [Hi(vid % 4096), Lo(vid % 4096)], macs + [0x81, 0x00]);
      ghost var tag: seq<Byte> := [0x81, 0x00, Hi(vid % 4096), Lo(vid % 4096)];
      assert macs + [0x81, 0x00] + [Hi(vid % 4096), Lo(vid % 4096)] == macs + tag;
      Append(tpl, 16, [0x08, 0x00], macs + tag);
    case None =>
      Append(tpl, 12, [0x08, 0x00], macs);
      assert macs + [] == macs;
  }

  /** The IPv4 bytes, written over zeros after the prefix `eth`. */
  method WriteIp(tpl: array<Byte>, r: Route, ghost eth: seq<Byte>, l2: nat)
    requires l2 == |eth| && tpl.Length >= l2 + IPV4_HDR && tpl[..] == eth + Zeros(tpl.Length - l2)
    modifies tpl
    ensures tpl[..] == eth + IpHeader(r, 0, 0) + Zeros(tpl.Length - l2 - IPV4_HDR)
  {
    WriteIpFixed(tpl, eth, l2);
    ghost var fixed := FixedIp();
    Append(tpl, l2 + 12, r.srcIp, eth + fixed);
    Append(tpl, l2 + 16, r.dstIp, eth + fixed + r.srcIp);
    Assoc(eth, fixed, r.srcIp, r.dstIp);
    assert fixed + r.srcIp + r.dstIp == IpHeader(r, 0, 0);
  }

  ghost function FixedIp(): (h: seq<Byte>)
    ensures |h| == 12
  {
    [0x45, 0, 0, 0, 0, 0, 0x40, 0, 64, 17, 0, 0]
  }

  /** The four constant bytes of the IPv4 header that are not zero. */
  method WriteIpFixed(tpl: array<Byte>, ghost eth: seq<Byte>, l2: nat)
    requires l2 == |eth| && tpl.Length >= l2 + IPV4_HDR && tpl[..] == eth + Zeros(tpl.Length - l2)
    modifies tpl
    ensures tpl[..] == eth + FixedIp() + Zeros(tpl.Length - l2 - 12)
  {
    tpl[l2] := 0x45;
    tpl[l2 + 6] := 0x40;
    tpl[l2 + 8] := 64;
    tpl[l2 + 9] := 17;
  }

  method WriteUdp(tpl: array<Byte>, r: Route, ghost front: seq<Byte>, off: nat)
    requires off == |front| && tpl.Length >= off + UDP_HDR && tpl[..] == front + Zeros(tpl.Length - off)
    modifies tpl
    ensures tpl[..] == front + UdpHeader(r, 0) + Zeros(tpl.Length - off - UDP_HDR)
  {
    tpl[off] := Hi(r.srcPort);
    tpl[off + 1] := Lo(r.srcPort);
    tpl[off + 2] := Hi(r.dstPort);
    tpl[off + 3] := Lo(r.dstPort);
  }

  /** The template array of `new_with_vlan`. */
  method BuildTemplate(r: Route) returns (tpl: array<Byte>)
    ensures fresh(tpl) && tpl.Length == OUTER_HDR_MAX
    ensures tpl[..] == TemplateFor(r) + Zeros(OUTER_HDR_MAX - OuterLen(r))
  {
    tpl := new Byte[OUTER_HDR_MAX](_ => 0);
    assert tpl[..] == Zeros(OUTER_HDR_MAX);
    var l2 := L2Len(r);
    WriteEth(tpl, r);
    WriteIp(tpl, r, EthHeader(r), l2);
    WriteUdp(tpl, r, EthHeader(r) + IpHeader(r, 0, 0), l2 + IPV4_HDR);
  }

  /** The constant part of the IPv4 checksum. */
  method BaseSum(h: seq<Byte>) returns (sum: nat)
    requires |h| == IPV4_HDR
    ensures sum == SumWords(h, 10)
  {
    sum := 0;
    for i := 0 to 10
      invariant sum == SumWords(h, i)
    {
      sum := sum + Word(h[2 * i], h[2 * i + 1]);
    }
  }

  class FrameHeader {
    const tpl: array<Byte>
    const outer: nat
    const l2: nat
    const ipBaseSum: nat
    ghost const route: Route

    ghost predicate Valid()
      reads tpl
    {
      && tpl.Length == OUTER_HDR_MAX && l2 == L2Len(route) && outer == OuterLen(route)
      && tpl[..] == TemplateFor(route) + Zeros(OUTER_HDR_MAX - outer)
      && ipBaseSum == SumWords(IpHeader(route, 0, 0), 10)
    }

    constructor NewWithVlan(r: Route)
      ensures Valid() && fresh(tpl) && route == r
    {
      var t := BuildTemplate(r);
      var off := L2Len(r);
      Middle(EthHeader(r), IpHeader(r, 0, 0), UdpHeader(r, 0), Zeros(OUTER_HDR_MAX - OuterLen(r)));
      assert t[off..off + IPV4_HDR] == t[..][off..off + IPV4_HDR];
      var sum := BaseSum(t[off..off + IPV4_HDR]);
      tpl, outer, l2, ipBaseSum := t, OuterLen(r), off, sum;
      route := r;
    }

    /** The per-packet checksum: precomputed base plus total length, folded twice. */
    method PacketChecksum(ipTot: U16) returns (ck: U16)
      requires Valid()
      ensures ck == ChecksumOf(IpHeader(route, ipTot, 0))
    {
      FastChecksum(route, ipTot);
      var sum := ipBaseSum + ipTot;
      sum := Fold(sum);
      sum := Fold(sum);
      ck := 65535 - sum;
    }

    /** Writes the three patched words over a copied template `t`. */
    method PatchWords(out: array<Byte>, ipTot: U16, ck: U16, udpLen: U16, ghost t: seq<Byte>, ghost rest: seq<Byte>)
      requires |t| == l2 + IPV4_HDR + UDP_HDR && out[..] == t + rest
      modifies out
      ensures out[..] ==
        t[l2 + 2 := Hi(ipTot)][l2 + 3 := Lo(ipTot)][l2 + 10 := Hi(ck)][l2 + 11 := Lo(ck)]
        [l2 + 24 := Hi(udpLen)][l2 + 25 := Lo(udpLen)] + rest
    {
      PutWord(out, l2 + 2, ipTot, t, rest);
      ghost var t1 := t[l2 + 2 := Hi(ipTot)][l2 + 3 := Lo(ipTot)];
      PutWord(out, l2 + 10, ck, t1, rest);
      ghost var t2 := t1[l2 + 10 := Hi(ck)][l2 + 11 := Lo(ck)];
      PutWord(out, l2 + IPV4_HDR + 4, udpLen, t2, rest);
    }

    /** Stamps the header for a payload of `dnsLen` bytes already in place. */
    method WriteHeader(out: array<Byte>, dnsLen: nat) returns (total: nat)
      requires Valid() && out != tpl && outer + dnsLen <= out.Length
      modifies out
      ensures Valid() && total == outer + dnsLen
      ensures out[..] == HeaderFor(route, dnsLen) + old(out[outer..])
    {
      ghost var t, rest := TemplateFor(route), out[outer..];
      var udpLen := UdpLen(dnsLen);
      var ipTot := IpTotal(dnsLen);
      assert tpl[..outer] == tpl[..][..outer] == t;
      CopyInto(out, 0, tpl[..outer]);
      assert out[..] == t + rest;
      var ck := PacketChecksum(ipTot);
      PatchWords(out, ipTot, ck, udpLen, t, rest);
      PatchedTemplate(route, dnsLen);
      total := outer + dnsLen;
    }

    /** Stamps a complete frame for the payload `dns`. */
    method WriteFrame(out: array<Byte>, dns: seq<Byte>) returns (total: nat)
      requires Valid() && out != tpl && outer + |dns| <= out.Length
      modifies out
      ensures Valid() && total == outer + |dns|
      ensures out[..total] == FrameFor(route, dns)
      ensures out[total..] == old(out[outer + |dns|..])
    {
      ghost var rest := out[outer + |dns|..];
      CopyInto(out, outer, dns);
      assert out[outer..] == dns + rest by { assert out[outer..] == out[..][outer..]; }
      total := WriteHeader(out, |dns|);
      assert out[..] == FrameFor(route, dns) + rest;
      assert out[..total] == out[..][..total];
      assert out[total..] == out[..][total..];
    }

    /** Patches the UDP source port of a stamped frame: the frame becomes the one of the
        same route with that port, and the IPv4 header is still valid. */
    method SetSrcPort(out: array<Byte>, port: U16, ghost dns: seq<Byte>)
      requires Valid() && outer + |dns| <= out.Length
      requires out[..outer + |dns|] == FrameFor(route, dns)
      modifies out
      ensures out[..outer + |dns|] == FrameFor(route.(srcPort := port), dns)
      ensures out[outer + |dns|..] == old(out[outer + |dns|..])
    {
      ghost var n, rest := outer + |dns|, out[outer + |dns|..];
      assert out[..] == FrameFor(route, dns) + rest;
      PutWord(out, l2 + IPV4_HDR, port, FrameFor(route, dns), rest);
      RepointedFrame(route, port, dns);
      assert out[..n] == out[..][..n];
      assert out[n..] == out[..][n..];
    }
  }

  /** The header is the template with six bytes patched. */
  lemma PatchedTemplate(r: Route, dnsLen: nat)
    ensures var total := IpTotal(dnsLen);
      var ck := ChecksumOf(IpHeader(r, total, 0));
      var at := L2Len(r);
      HeaderFor(r, dnsLen) ==
        TemplateFor(r)[at + 2 := Hi(total)][at + 3 := Lo(total)][at + 10 := Hi(ck)][at + 11 := Lo(ck)]
        [at + 24 := Hi(UdpLen(dnsLen))][at + 25 := Lo(UdpLen(dnsLen))]
  {
  }

  /** The source port appears in two bytes of the frame and nowhere in its checksum. */
  lemma RepointedFrame(r: Route, port: U16, dns: seq<Byte>)
    ensures FrameFor(r.(srcPort := port), dns) ==
      FrameFor(r, dns)[L2Len(r) + IPV4_HDR := Hi(port)][L2Len(r) + IPV4_HDR + 1 := Lo(port)]
  {
  }
}
