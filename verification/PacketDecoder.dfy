/** The frame decoder: Ethernet with at most one 802.1Q tag, IPv4 or IPv6, and the four transports
    the flow table knows. */
module PacketDecoder {
  import opened Numbers
  import opened Events
  import opened Options

  const ETH_HDR_LEN := 14
  const ETHER_IPV4: u16 := 0x0800
  const ETHER_IPV6: u16 := 0x86DD
  const ETHER_VLAN: u16 := 0x8100

  function Mapped(addr4: seq<u8>): IpAddr
    requires |addr4| == 4
  {
    [0, 0, 0, 0, 0, 0, 0, 0, 0, 0, 0xFF, 0xFF] + addr4
  }

  /** What the link layer leaves: the type of the payload and where it starts. */
  function LinkType(d: seq<u8>): Option<(u16, nat)> {
    if |d| < ETH_HDR_LEN then None
    else if Be16(d[12], d[13]) != ETHER_VLAN then Some((Be16(d[12], d[13]), 14))
    else if |d| < 18 then None
    else Some((Be16(d[16], d[17]), 18))
  }

  datatype Network =
    Network(srcIp: IpAddr, dstIp: IpAddr, protocol: u8, wireLength: u32, isIpv6: bool, headerLength: nat)

  function DecodeNetwork(etherType: u16, d: seq<u8>): Option<Network> {
    if etherType == ETHER_IPV4 then
      if |d| < 20 || d[0] / 16 != 4 then None
      else
        var headerLength := d[0] % 16 * 4;
        if headerLength < 20 || |d| < headerLength then None
        else Some(Network(Mapped(d[12..16]), Mapped(d[16..20]), d[9], Be16(d[2], d[3]), false, headerLength))
    else if etherType == ETHER_IPV6 then
      if |d| < 40 || d[0] / 16 != 6 then None
      else Some(Network(d[8..24], d[24..40], d[6], Be16(d[4], d[5]) + 40, true, 40))
    else None
  }

  datatype Transport = Transport(srcPort: u16, dstPort: u16, tcpFin: bool, tcpRst: bool)

  function DecodeTransport(protocol: u8, d: seq<u8>): Option<Transport> {
    if protocol == IPPROTO_TCP then
      if |d| < 20 then None
      else Some(Transport(Be16(d[0], d[1]), Be16(d[2], d[3]), d[13] % 2 == 1, d[13] / 4 % 2 == 1))
    else if protocol == IPPROTO_UDP then
      if |d| < 8 then None else Some(Transport(Be16(d[0], d[1]), Be16(d[2], d[3]), false, false))
    else if protocol == IPPROTO_ICMP then
      if |d| < 8 then None else Some(Transport(Be16(d[0], d[1]), 0, false, false))
    else if protocol == IPPROTO_ICMPV6 then
      if |d| < 4 then None else Some(Transport(Be16(d[0], d[1]), 0, false, false))
    else None
  }

  function Assemble(n: Network, t: Transport, timestampUs: i64): ParsedPacket {
    ParsedPacket(n.srcIp, n.dstIp, t.srcPort, t.dstPort, n.protocol, n.wireLength, timestampUs,
                 t.tcpFin, t.tcpRst, n.isIpv6)
  }

  /** The packet in an IP payload. */
  function DecodeIp(etherType: u16, d: seq<u8>, timestampUs: i64): Option<ParsedPacket> {
    match DecodeNetwork(etherType, d)
    case None => None
    case Some(n) =>
      match DecodeTransport(n.protocol, d[n.headerLength..])
      case None => None
      case Some(t) => Some(Assemble(n, t, timestampUs))
  }

  function Decode(d: seq<u8>, timestampUs: i64): Option<ParsedPacket> {
    match LinkType(d)
    case None => None
    case Some((etherType, offset)) => DecodeIp(etherType, d[offset..], timestampUs)
  }

  /** Wherever a frame's headers put the transport header: within the capture, behind at least a
      bare Ethernet and IPv4 header, and at byte 78 at the latest, which only a tagged IPv4 frame
      with the longest header reaches. */
  lemma TransportOffset(d: seq<u8>)
    requires LinkType(d).Some? && DecodeNetwork(LinkType(d).value.0, d[LinkType(d).value.1..]).Some?
    ensures var (etherType, start) := LinkType(d).value;
      var offset := start + DecodeNetwork(etherType, d[start..]).value.headerLength;
      && 34 <= offset <= 78 && offset <= |d|
      && (offset == 78 <==> start == 18 && etherType == ETHER_IPV4 && d[18] % 16 == 15)
  {
    var (etherType, start) := LinkType(d).value;
    assert d[start..][0] == d[start];
  }

  // ---------------------------------------------------------------- as the program runs it

  datatype TimeVal = TimeVal(sec: i64, usec: i64)

  /** Overwrites the sixteen bytes with the IPv4-mapped form of four. */
  method SetIpv4Mapped(out: array<u8>, addr4: seq<u8>)
    requires out.Length == 16 && |addr4| == 4
    modifies out
    ensures out[..] == Mapped(addr4)
  {
    var i := 0;
    while i < 16
      invariant 0 <= i <= 16
      invariant forall j | 0 <= j < i :: out[j] == 0
    {
      out[i] := 0;
      i := i + 1;
    }
    out[10] := 0xFF;
    out[11] := 0xFF;
    i := 0;
    while i < 4
      invariant 0 <= i <= 4
      invariant forall j | 0 <= j < 10 :: out[j] == 0
      invariant out[10] == 0xFF && out[11] == 0xFF
      invariant forall j | 0 <= j < i :: out[12 + j] == addr4[j]
    {
      out[12 + i] := addr4[i];
      i := i + 1;
    }
  }

  const BLANK := ParsedPacket(seq(16, _ => 0), seq(16, _ => 0), 0, 0, 0, 0, 0, false, false, false)

  /** Advances an offset through the headers, filling the packet in as it goes and giving up at
      the first header that does not fit in the captured length. */
  method DecodeFrame(data: array?<u8>, len: nat, ts: TimeVal) returns (r: Option<ParsedPacket>)
    requires data != null ==> len <= data.Length
    requires -0x8000_0000_0000_0000 <= ts.sec * 1_000_000 + ts.usec < 0x8000_0000_0000_0000
    ensures r == if data == null then None else Decode(data[..len], ts.sec * 1_000_000 + ts.usec)
  {
    if data == null || len < ETH_HDR_LEN {
      return None;
    }
    ghost var d := data[..len];
    var offset := ETH_HDR_LEN - 2;
    var etherType := Be16(data[offset], data[offset + 1]);
    offset := offset + 2;
    if etherType == ETHER_VLAN {
      if len < offset + 4 {
        return None;
      }
      offset := offset + 2;
      etherType := Be16(data[offset], data[offset + 1]);
      offset := offset + 2;
    }
    assert LinkType(d) == Some((etherType, offset));
    var pkt := BLANK.(timestampUs := ts.sec * 1_000_000 + ts.usec);
    var net := ReadNetwork(data, len, offset, etherType, pkt);
    if net.None? {
      return None;
    }
    pkt, offset := net.value.0, net.value.1;
    TransportOffset(d);
    assert offset <= 78;
    r := ReadTransport(data, len, offset, pkt);
    assert d[offset..] == d[LinkType(d).value.1..][offset - LinkType(d).value.1..];
  }

  function Filled(blank: ParsedPacket, n: Network): ParsedPacket {
    blank.(srcIp := n.srcIp, dstIp := n.dstIp, protocol := n.protocol, wireLength := n.wireLength, isIpv6 := n.isIpv6)
  }

  lemma Window(d: seq<u8>, start: nat, end: nat, a: nat, b: nat)
    requires start <= end <= |d| && a <= b <= end - start
    ensures d[start..end][a..b] == d[start + a..start + b]
  {
    var w := d[start..end];
    forall i | 0 <= i < b - a
      ensures w[a..b][i] == d[start + a..start + b][i]
    {
      assert w[a + i] == d[start + a + i];
    }
  }

  /** The IP header at the offset: the packet with its addresses, and the offset behind it. */
  method ReadNetwork(data: array<u8>, len: nat, start: nat, etherType: u16, blank: ParsedPacket)
    returns (r: Option<(ParsedPacket, nat)>)
    requires start <= len <= data.Length
    ensures var n := DecodeNetwork(etherType, data[start..len]);
      r == if n.None? then None else Some((Filled(blank, n.value), start + n.value.headerLength))
    ensures r.Some? ==> start + 20 <= r.value.1 <= start + 60 && r.value.1 <= len
  {
    if etherType == ETHER_IPV4 {
      r := ReadIpv4(data, len, start, blank);
    } else if etherType == ETHER_IPV6 {
      r := ReadIpv6(data, len, start, blank);
    } else {
      return None;
    }
  }

  method ReadIpv4(data: array<u8>, len: nat, start: nat, blank: ParsedPacket) returns (r: Option<(ParsedPacket, nat)>)
    requires start <= len <= data.Length
    ensures var n := DecodeNetwork(ETHER_IPV4, data[start..len]);
      r == if n.None? then None else Some((Filled(blank, n.value), start + n.value.headerLength))
    ensures r.Some? ==> start + 20 <= r.value.1 <= start + 60 && r.value.1 <= len
  {
    var offset: nat := start;
    if len < offset + 20 {
      return None;
    }
    if data[offset] / 16 != 4 {
      return None;
    }
    var ipHdrLen: nat := data[offset] % 16 * 4;
    if ipHdrLen < 20 || len < offset + ipHdrLen {
      return None;
    }
    ghost var bytes := data[..];
    assert data[start..len] == bytes[start..len];
    Window(bytes, start, len, 12, 16);
    Window(bytes, start, len, 16, 20);
    var pkt := blank;
    var src, dst := new u8[16], new u8[16];
    SetIpv4Mapped(src, data[offset + 12..offset + 16]);
    pkt := pkt.(srcIp := src[..]);
    SetIpv4Mapped(dst, data[offset + 16..offset + 20]);
    pkt := pkt.(dstIp := dst[..]);
    pkt := pkt.(protocol := data[offset + 9]);
    pkt := pkt.(wireLength := Be16(data[offset + 2], data[offset + 3]));
    pkt := pkt.(isIpv6 := false);
    offset := offset + ipHdrLen;
    return Some((pkt, offset));
  }

  method ReadIpv6(data: array<u8>, len: nat, start: nat, blank: ParsedPacket) returns (r: Option<(ParsedPacket, nat)>)
    requires start <= len <= data.Length
    ensures var n := DecodeNetwork(ETHER_IPV6, data[start..len]);
      r == if n.None? then None else Some((Filled(blank, n.value), start + n.value.headerLength))
    ensures r.Some? ==> r.value.1 == start + 40 <= len
  {
    var offset: nat := start;
    if len < offset + 40 {
      return None;
    }
    if data[offset] / 16 != 6 {
      return None;
    }
    ghost var bytes := data[..];
    assert data[start..len] == bytes[start..len];
    Window(bytes, start, len, 8, 24);
    Window(bytes, start, len, 24, 40);
    var pkt := blank;
    pkt := pkt.(srcIp := data[offset + 8..offset + 24]);
    pkt := pkt.(dstIp := data[offset + 24..offset + 40]);
    pkt := pkt.(protocol := data[offset + 6]);
    pkt := pkt.(wireLength := Be16(data[offset + 4], data[offset + 5]) + 40);
    pkt := pkt.(isIpv6 := true);
    offset := offset + 40;
    return Some((pkt, offset));
  }

  /** The transport header at the offset completes the packet. */
  method ReadTransport(data: array<u8>, len: nat, offset: nat, pkt: ParsedPacket) returns (r: Option<ParsedPacket>)
    requires offset <= len <= data.Length
    requires pkt.dstPort == 0 && !pkt.tcpFin && !pkt.tcpRst
    ensures var t := DecodeTransport(pkt.protocol, data[offset..len]);
      r == if t.None? then None
           else Some(pkt.(srcPort := t.value.srcPort, dstPort := t.value.dstPort,
                          tcpFin := t.value.tcpFin, tcpRst := t.value.tcpRst))
  {
    var p := pkt;
    if p.protocol == IPPROTO_TCP {
      if len < offset + 20 {
        return None;
      }
      p := p.(srcPort := Be16(data[offset], data[offset + 1]));
      p := p.(dstPort := Be16(data[offset + 2], data[offset + 3]));
      p := p.(tcpFin := data[offset + 13] % 2 == 1);
      p := p.(tcpRst := data[offset + 13] / 4 % 2 == 1);
    } else if p.protocol == IPPROTO_UDP {
      if len < offset + 8 {
        return None;
      }
      p := p.(srcPort := Be16(data[offset], data[offset + 1]));
      p := p.(dstPort := Be16(data[offset + 2], data[offset + 3]));
    } else if p.protocol == IPPROTO_ICMP {
      if len < offset + 8 {
        return None;
      }
      p := p.(srcPort := Be16(data[offset], data[offset + 1]));
    } else if p.protocol == IPPROTO_ICMPV6 {
      if len < offset + 4 {
        return None;
      }
      p := p.(srcPort := Be16(data[offset], data[offset + 1]));
    } else {
      return None;
    }
    return Some(p);
  }
}
