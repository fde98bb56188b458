/** The receive side: the eBPF classifier (ebpf/dns_xdp_client.c), the frame parser
    (`parse_dns_from_frame`, src/transport/xdp/receiver.rs) and the DNS header parser
    (src/dns/response.rs). */
module Parser {
  import opened Machine
  import opened Bytes
  import opened Frame

  datatype Response = Response(id: U16, rcode: nat)

  /** `parse_response`: at least a DNS header, with the QR bit set. */
  function ParseResponse(b: seq<Byte>): Option<Response> {
    if |b| < 12 then None
    else
      var flags := Word(b[2], b[3]);
      if flags / 0x8000 == 0 then None else Some(Response(Word(b[0], b[1]), flags % 16))
  }

  /** What it reads: the id is the first word, the rcode the low four bits of the fourth byte,
      and the QR bit the high bit of the third. */
  lemma ParsedFields(b: seq<Byte>)
    ensures ParseResponse(b).Some? <==> |b| >= 12 && b[2] >= 128
    ensures ParseResponse(b).Some? ==>
      ParseResponse(b).value.id == (b[0] as nat) * 256 + (b[1] as nat) && ParseResponse(b).value.rcode == b[3] % 16
  {
  }

  /** A reply: at least a header, with this id, the QR bit set and this rcode. */
  predicate IsReply(b: seq<Byte>, id: U16, rcode: nat) {
    |b| >= 12 && b[0] == Hi(id) && b[1] == Lo(id) && b[2] >= 128 && b[3] % 16 == rcode
  }

  /** `parse_dns_from_frame`: at most one 802.1Q tag, IPv4 with any options or IPv6, UDP. */
  function ParseDnsFromFrame(f: seq<Byte>): Option<Response> {
    if |f| < 16 then None
    else
      var tagged := Word(f[12], f[13]) == 0x8100;
      if tagged && |f| < 18 then None
      else
        var l2 := if tagged then 18 else 14;
        var ethType := if tagged then Word(f[16], f[17]) else Word(f[12], f[13]);
        match IpHeaderLen(f, l2, ethType)
        case None => None
        case Some(ipLen) =>
          var dnsOff := l2 + ipLen + 8;
          if |f| < dnsOff + 12 then None else ParseResponse(f[dnsOff..])
  }

  function IpHeaderLen(f: seq<Byte>, l2: nat, ethType: U16): Option<nat> {
    if ethType == 0x0800 then
      if |f| < l2 + 20 || f[l2 + 9] != 17 || f[l2] % 16 * 4 < 20 then None else Some(f[l2] % 16 * 4)
    else if ethType == 0x86DD then
      if |f| < l2 + 40 || f[l2 + 6] != 17 then None else Some(40)
    else None
  }

  /** Pass to the kernel stack, or redirect; `payload` is the UDP payload offset. */
  datatype Verdict = Pass | Redirect(payload: nat)

  /** `dns_xdp_client`. */
  function Classify(f: seq<Byte>): Verdict {
    if |f| < 14 then Pass
    else
      var proto := Word(f[12], f[13]);
      if proto == 0x0800 then
        if |f| < 34 || f[23] != 17 || f[14] % 16 != 5 then Pass else ClassifyUdp(f, 34)
      else if proto == 0x86DD then
        if |f| < 54 || f[20] != 17 then Pass else ClassifyUdp(f, 54)
      else Pass
  }

  function ClassifyUdp(f: seq<Byte>, udp: nat): Verdict {
    if |f| < udp + 8 || Word(f[udp], f[udp + 1]) != 53 then Pass else Redirect(udp + 8)
  }

  /** Classifier and parser agree on where the payload starts, so of the frames that are
      redirected the parser rejects only those whose payload is shorter than a DNS
      header or is a query. */
  lemma FilterAgreesWithParser(f: seq<Byte>)
    requires Classify(f).Redirect?
    ensures Classify(f).payload <= |f|
    ensures ParseDnsFromFrame(f) == ParseResponse(f[Classify(f).payload..])
    ensures var b := f[Classify(f).payload..];
      ParseDnsFromFrame(f).None? <==> |b| < 12 || Word(b[2], b[3]) < 0x8000
  {
  }

  /** Conversely, of the replies the parser would accept, the classifier captures exactly
      those from port 53 with no VLAN tag and no IPv4 options. */
  lemma CapturedReplies(f: seq<Byte>)
    requires ParseDnsFromFrame(f).Some?
    ensures var ethType := Word(f[12], f[13]);
      Classify(f).Redirect? <==>
        ((ethType == 0x0800 && f[14] % 16 == 5 && Word(f[34], f[35]) == 53)
         || (ethType == 0x86DD && Word(f[54], f[55]) == 53))
  {
  }

  /** In particular no tagged frame is ever redirected, so behind this classifier the
      parser's VLAN branch never runs. */
  lemma TaggedNeverRedirected(f: seq<Byte>)
    requires |f| >= 14 && Word(f[12], f[13]) == 0x8100
    ensures Classify(f) == Pass
  {
  }

  lemma FrameBytes(r: Route, dns: seq<Byte>)
    ensures var f := FrameFor(r, dns); var l2 := L2Len(r);
      && |f| == OuterLen(r) + |dns| && f[OuterLen(r)..] == dns
      && Word(f[12], f[13]) == (if r.vlan.Some? then 0x8100 else 0x0800)
      && (r.vlan.Some? ==> Word(f[16], f[17]) == 0x0800)
      && f[l2] == 0x45 && f[l2 + 9] == 17
      && Word(f[l2 + 20], f[l2 + 21]) == r.srcPort
  {
  }

  /** Round trip: parsing a frame this tool built gives exactly what parsing its payload
      gives, with or without a VLAN tag. */
  lemma BuildThenParse(r: Route, dns: seq<Byte>)
    ensures ParseDnsFromFrame(FrameFor(r, dns)) == ParseResponse(dns)
  {
    FrameBytes(r, dns);
    ParsesAt(FrameFor(r, dns), L2Len(r), dns);
  }

  lemma ParsesAt(f: seq<Byte>, l2: nat, dns: seq<Byte>)
    requires l2 == 14 || l2 == 18
    requires |f| == l2 + 28 + |dns| && f[l2 + 28..] == dns && f[l2] == 0x45 && f[l2 + 9] == 17
    requires Word(f[12], f[13]) == (if l2 == 18 then 0x8100 else 0x0800)
    requires l2 == 18 ==> Word(f[16], f[17]) == 0x0800
    ensures ParseDnsFromFrame(f) == ParseResponse(dns)
  {
    NoOptions(f, l2);
  }

  lemma NoOptions(f: seq<Byte>, l2: nat)
    requires |f| >= l2 + 20 && f[l2] == 0x45 && f[l2 + 9] == 17
    ensures IpHeaderLen(f, l2, 0x0800) == Some(20)
  {
  }

  /** Round trip of a reply: whatever follows the header, id and rcode are read back, from
      the bare message and from a frame around it, tagged or not. */
  lemma ReplyRoundTrip(r: Route, b: seq<Byte>, id: U16, rcode: nat)
    requires IsReply(b, id, rcode)
    ensures ParseResponse(b) == Some(Response(id, rcode))
    ensures ParseDnsFromFrame(FrameFor(r, b)) == Some(Response(id, rcode))
  {
    ParsedFields(b);
    WordHiLo(id);
    BuildThenParse(r, b);
  }

  /** The same for any frame a server may send: one VLAN tag or none, IPv4 with up to ten
      words of options or IPv6 without extension headers. `ip` is the length of the IP header. */
  lemma AnyReplyParsed(f: seq<Byte>, l2: nat, ip: nat, id: U16, rcode: nat)
    requires (l2 == 14 && |f| >= 14) || (l2 == 18 && |f| >= 18 && Word(f[12], f[13]) == 0x8100)
    requires |f| >= l2 + ip + 8 && IsReply(f[l2 + ip + 8..], id, rcode)
    requires
      || (Word(f[l2 - 2], f[l2 - 1]) == 0x0800 && 20 <= ip == f[l2] % 16 * 4 && f[l2 + 9] == 17)
      || (Word(f[l2 - 2], f[l2 - 1]) == 0x86DD && ip == 40 && f[l2 + 6] == 17)
    ensures ParseDnsFromFrame(f) == Some(Response(id, rcode))
  {
    ParsedFields(f[l2 + ip + 8..]);
    WordHiLo(id);
  }

  /** The classifier captures a frame this tool built only if it is untagged and sent
      from port 53: with the source ports in use, never its own queries. */
  lemma OwnFramesPass(r: Route, dns: seq<Byte>)
    ensures Classify(FrameFor(r, dns)).Redirect? <==> r.vlan.None? && r.srcPort == 53
  {
    FrameBytes(r, dns);
    var f := FrameFor(r, dns);
    if r.vlan.Some? {
      TaggedNeverRedirected(f);
    } else {
      PlainUdp(f);
    }
  }

  lemma PlainUdp(f: seq<Byte>)
    requires |f| >= 42 && Word(f[12], f[13]) == 0x0800 && f[14] == 0x45 && f[23] == 17
    ensures Classify(f).Redirect? <==> Word(f[34], f[35]) == 53
  {
  }
}
