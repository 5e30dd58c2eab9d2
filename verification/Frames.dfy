/** Frames built field by field from the header layouts of the standards (RFC 791 section 3.1,
    RFC 8200 section 3, RFC 9293 section 3.1, RFC 768, RFC 792, RFC 4443 section 2.1), and the
    proof that the decoder accepts exactly the byte strings that begin with such a frame. */
module Frames {
  import opened Numbers
  import opened Events
  import opened Options
  import opened PacketDecoder

  /** middle: identification, flags and fragment offset, time to live. */
  datatype IpHeader =
    | V4(tos: u8, totalLength: u16, middle: seq<u8>, checksum: seq<u8>, src: seq<u8>, dst: seq<u8>, options: seq<u8>)
    | V6(classHigh: nat, classAndFlow: seq<u8>, payloadLength: u16, hopLimit: u8, src6: seq<u8>, dst6: seq<u8>)

  /** rest: the header's remaining bytes, which play no part in a flow. */
  datatype TransportHeader =
    | Tcp(srcPort: u16, dstPort: u16, numbers: seq<u8>, dataOffset: u8, flags: u8, rest: seq<u8>)
    | Udp(srcPort: u16, dstPort: u16, rest: seq<u8>)
    | Icmp(kind: u8, code: u8, rest: seq<u8>)
    | Icmp6(kind: u8, code: u8, rest: seq<u8>)

  datatype Frame = Frame(macs: seq<u8>, tag: Option<seq<u8>>, ip: IpHeader, transport: TransportHeader)

  predicate IpOk(h: IpHeader) {
    match h
    case V4(_, _, middle, checksum, src, dst, options) =>
      |middle| == 5 && |checksum| == 2 && |src| == 4 && |dst| == 4 && |options| % 4 == 0 && |options| <= 40
    case V6(classHigh, classAndFlow, _, _, src, dst) =>
      classHigh < 16 && |classAndFlow| == 3 && |src| == 16 && |dst| == 16
  }

  predicate TransportOk(h: TransportHeader) {
    match h
    case Tcp(_, _, numbers, _, _, rest) => |numbers| == 8 && |rest| == 6
    case Udp(_, _, rest) => |rest| == 4
    case Icmp(_, _, rest) => |rest| == 6
    case Icmp6(_, _, rest) => |rest| == 2
  }

  predicate WellFormed(f: Frame) {
    |f.macs| == 12 && (f.tag.Some? ==> |f.tag.value| == 2) && IpOk(f.ip) && TransportOk(f.transport)
  }

  // ---------------------------------------------------------------- to bytes

  function Bytes16(x: u16): seq<u8> {
    [x / 256, x % 256]
  }

  /** The assigned protocol numbers. */
  function Protocol(h: TransportHeader): u8 {
    match h
    case Tcp(_, _, _, _, _, _) => 6
    case Udp(_, _, _) => 17
    case Icmp(_, _, _) => 1
    case Icmp6(_, _, _) => 58
  }

  /** The EtherType of the payload, as it stands in the frame. */
  function TypeBytes(h: IpHeader): seq<u8> {
    if h.V4? then [0x08, 0x00] else [0x86, 0xDD]
  }

  /** The IPv4-mapped form of an IPv4 address. */
  function AsV6(addr4: seq<u8>): IpAddr
    requires |addr4| == 4
  {
    [0, 0, 0, 0, 0, 0, 0, 0, 0, 0, 0xFF, 0xFF, addr4[0], addr4[1], addr4[2], addr4[3]]
  }

  function IpBytes(h: IpHeader, protocol: u8): seq<u8>
    requires IpOk(h)
  {
    match h
    case V4(tos, totalLength, middle, checksum, src, dst, options) =>
      [0x40 + 5 + |options| / 4, tos] + Bytes16(totalLength) + middle + [protocol] + checksum + src + dst + options
    case V6(classHigh, classAndFlow, payloadLength, hopLimit, src, dst) =>
      [0x60 + classHigh] + classAndFlow + Bytes16(payloadLength) + [protocol, hopLimit] + src + dst
  }

  function TransportBytes(h: TransportHeader): seq<u8> {
    match h
    case Tcp(srcPort, dstPort, numbers, dataOffset, flags, rest) =>
      Bytes16(srcPort) + Bytes16(dstPort) + numbers + [dataOffset, flags] + rest
    case Udp(srcPort, dstPort, rest) => Bytes16(srcPort) + Bytes16(dstPort) + rest
    case Icmp(kind, code, rest) => [kind, code] + rest
    case Icmp6(kind, code, rest) => [kind, code] + rest
  }

  function LinkBytes(f: Frame): seq<u8> {
    f.macs + (if f.tag.Some? then [0x81, 0x00] + f.tag.value else []) + TypeBytes(f.ip)
  }

  function Build(f: Frame): seq<u8>
    requires WellFormed(f)
  {
    LinkBytes(f) + (IpBytes(f.ip, Protocol(f.transport)) + TransportBytes(f.transport))
  }

  /** The flow fields of a frame. FIN is bit 0 and RST bit 2 of the TCP flags. */
  function PacketOf(f: Frame, timestampUs: i64): ParsedPacket
    requires WellFormed(f)
  {
    var (src, dst, wireLength) :=
      match f.ip
      case V4(_, totalLength, _, _, src, dst, _) => (AsV6(src), AsV6(dst), totalLength)
      case V6(_, _, payloadLength, _, src, dst) => (src, dst, payloadLength + 40);
    var (srcPort, dstPort) :=
      match f.transport
      case Tcp(s, d, _, _, _, _) => (s, d)
      case Udp(s, d, _) => (s, d)
      case Icmp(kind, code, _) => (kind * 256 + code, 0)
      case Icmp6(kind, code, _) => (kind * 256 + code, 0);
    var flags := if f.transport.Tcp? then f.transport.flags else 0;
    ParsedPacket(src, dst, srcPort, dstPort, Protocol(f.transport), wireLength, timestampUs,
                 flags % 2 == 1, flags / 4 % 2 == 1, f.ip.V6?)
  }

  // ---------------------------------------------------------------- built frames decode

  lemma MappedAsV6(addr4: seq<u8>)
    requires |addr4| == 4
    ensures Mapped(addr4) == AsV6(addr4)
  {
    assert addr4 == [addr4[0], addr4[1], addr4[2], addr4[3]];
  }

  /** The decoder's name for the EtherType. */
  function EtherType(h: IpHeader): u16 {
    if h.V4? then ETHER_IPV4 else ETHER_IPV6
  }

  lemma TypeDecodes(h: IpHeader)
    ensures Be16(TypeBytes(h)[0], TypeBytes(h)[1]) == EtherType(h) && Bytes16(EtherType(h)) == TypeBytes(h)
  {
  }

  lemma V4Decodes(h: IpHeader, protocol: u8, rest: seq<u8>)
    requires h.V4? && IpOk(h)
    ensures var d := IpBytes(h, protocol) + rest;
      && DecodeNetwork(ETHER_IPV4, d) ==
         Some(Network(AsV6(h.src), AsV6(h.dst), protocol, h.totalLength, false, 20 + |h.options|))
      && d[20 + |h.options|..] == rest
  {
    MappedAsV6(h.src);
    MappedAsV6(h.dst);
    hide Mapped, AsV6;
    var d := IpBytes(h, protocol) + rest;
    assert |IpBytes(h, protocol)| == 20 + |h.options|;
    assert d[0] == 0x45 + |h.options| / 4 && d[2] == h.totalLength / 256 && d[3] == h.totalLength % 256;
    assert d[9] == protocol && d[12..16] == h.src && d[16..20] == h.dst;
  }

  lemma V6Decodes(h: IpHeader, protocol: u8, rest: seq<u8>)
    requires h.V6? && IpOk(h)
    ensures var d := IpBytes(h, protocol) + rest;
      && DecodeNetwork(ETHER_IPV6, d) == Some(Network(h.src6, h.dst6, protocol, h.payloadLength + 40, true, 40))
      && d[40..] == rest
  {
    var d := IpBytes(h, protocol) + rest;
    assert |IpBytes(h, protocol)| == 40;
    assert d[0] == 0x60 + h.classHigh && d[4] == h.payloadLength / 256 && d[5] == h.payloadLength % 256;
    assert d[6] == protocol && d[8..24] == h.src6 && d[24..40] == h.dst6;
  }

  lemma TransportDecodes(h: TransportHeader, rest: seq<u8>)
    requires TransportOk(h)
    ensures var flags := if h.Tcp? then h.flags else 0;
      DecodeTransport(Protocol(h), TransportBytes(h) + rest) ==
      Some(Transport(if h.Tcp? || h.Udp? then h.srcPort else h.kind * 256 + h.code,
                     if h.Tcp? || h.Udp? then h.dstPort else 0,
                     flags % 2 == 1, flags / 4 % 2 == 1))
  {
    var d := TransportBytes(h) + rest;
    match h
    case Tcp(srcPort, dstPort, _, _, flags, _) =>
      assert d[0] == srcPort / 256 && d[1] == srcPort % 256 && d[2] == dstPort / 256 && d[3] == dstPort % 256;
      assert d[13] == flags;
    case Udp(srcPort, dstPort, _) =>
      assert d[0] == srcPort / 256 && d[1] == srcPort % 256 && d[2] == dstPort / 256 && d[3] == dstPort % 256;
    case Icmp(kind, code, _) => assert d[0] == kind && d[1] == code;
    case Icmp6(kind, code, _) => assert d[0] == kind && d[1] == code;
  }

  lemma LinkDecodes(f: Frame, rest: seq<u8>)
    requires WellFormed(f)
    ensures LinkType(LinkBytes(f) + rest) == Some((EtherType(f.ip), |LinkBytes(f)|))
    ensures (LinkBytes(f) + rest)[|LinkBytes(f)|..] == rest
  {
    var d := LinkBytes(f) + rest;
    TypeDecodes(f.ip);
    if f.tag.Some? {
      assert d[12] == 0x81 && d[13] == 0x00;
      assert Be16(d[16], d[17]) == EtherType(f.ip);
    } else {
      assert Be16(d[12], d[13]) == EtherType(f.ip);
    }
  }

  /** Whatever follows it, a well-formed frame decodes to its own fields. */
  lemma BuiltDecodes(f: Frame, payload: seq<u8>, timestampUs: i64)
    requires WellFormed(f)
    ensures Decode(Build(f) + payload, timestampUs) == Some(PacketOf(f, timestampUs))
  {
    hide DecodeNetwork, DecodeTransport, LinkType, IpBytes, TransportBytes, LinkBytes;
    var protocol, rest := Protocol(f.transport), TransportBytes(f.transport) + payload;
    var ip := IpBytes(f.ip, protocol) + rest;
    assert Build(f) + payload == LinkBytes(f) + ip;
    LinkDecodes(f, ip);
    TransportDecodes(f.transport, payload);
    if f.ip.V4? {
      V4Decodes(f.ip, protocol, rest);
    } else {
      V6Decodes(f.ip, protocol, rest);
    }
  }

  // ---------------------------------------------------------------- what decodes was built

  function IpOf(etherType: u16, d: seq<u8>): IpHeader
    requires DecodeNetwork(etherType, d).Some?
  {
    if etherType == ETHER_IPV4 then
      V4(d[1], Be16(d[2], d[3]), d[4..9], d[10..12], d[12..16], d[16..20], d[20..d[0] % 16 * 4])
    else
      V6(d[0] % 16, d[1..4], Be16(d[4], d[5]), d[7], d[8..24], d[24..40])
  }

  function TransportOf(protocol: u8, d: seq<u8>): TransportHeader
    requires DecodeTransport(protocol, d).Some?
  {
    if protocol == IPPROTO_TCP then Tcp(Be16(d[0], d[1]), Be16(d[2], d[3]), d[4..12], d[12], d[13], d[14..20])
    else if protocol == IPPROTO_UDP then Udp(Be16(d[0], d[1]), Be16(d[2], d[3]), d[4..8])
    else if protocol == IPPROTO_ICMP then Icmp(d[0], d[1], d[2..8])
    else Icmp6(d[0], d[1], d[2..4])
  }

  function FrameOf(d: seq<u8>, timestampUs: i64): Frame
    requires Decode(d, timestampUs).Some?
  {
    var (etherType, offset) := LinkType(d).value;
    var ip := d[offset..];
    var n := DecodeNetwork(etherType, ip).value;
    Frame(d[..12], if offset == 18 then Some(d[14..16]) else None,
          IpOf(etherType, ip), TransportOf(n.protocol, ip[n.headerLength..]))
  }

  lemma Onwards(d: seq<u8>, a: nat, b: nat)
    requires a <= b <= |d|
    ensures d[..a] + d[a..b] == d[..b]
  {
  }

  lemma PairRoundTrip(hi: u8, lo: u8)
    ensures Bytes16(Be16(hi, lo)) == [hi, lo]
  {
    DivModUnique(hi * 256 + lo, 256, hi, lo);
  }

  lemma TwoBytes(d: seq<u8>, a: nat)
    requires a + 2 <= |d|
    ensures Bytes16(Be16(d[a], d[a + 1])) == d[a..a + 2] == [d[a], d[a + 1]]
  {
    hide Bytes16, Be16;
    PairRoundTrip(d[a], d[a + 1]);
  }

  lemma OneByte(d: seq<u8>, a: nat)
    requires a < |d|
    ensures [d[a]] == d[a..a + 1]
  {
  }

  lemma V4Rebuilt(d: seq<u8>, n: nat)
    requires 20 <= n <= |d|
    ensures [d[0], d[1]] + Bytes16(Be16(d[2], d[3])) + d[4..9] + [d[9]] + d[10..12] + d[12..16] + d[16..20]
            + d[20..n] == d[..n]
  {
    hide Bytes16, Be16;
    TwoBytes(d, 0);
    TwoBytes(d, 2);
    OneByte(d, 9);
    Onwards(d, 2, 4);
    Onwards(d, 4, 9);
    Onwards(d, 9, 10);
    Onwards(d, 10, 12);
    Onwards(d, 12, 16);
    Onwards(d, 16, 20);
    Onwards(d, 20, n);
  }

  lemma V6Rebuilt(d: seq<u8>)
    requires |d| >= 40
    ensures [d[0]] + d[1..4] + Bytes16(Be16(d[4], d[5])) + [d[6], d[7]] + d[8..24] + d[24..40] == d[..40]
  {
    hide Bytes16, Be16;
    OneByte(d, 0);
    TwoBytes(d, 4);
    TwoBytes(d, 6);
    Onwards(d, 1, 4);
    Onwards(d, 4, 6);
    Onwards(d, 6, 8);
    Onwards(d, 8, 24);
    Onwards(d, 24, 40);
  }

  lemma IpRebuilt(etherType: u16, d: seq<u8>)
    requires DecodeNetwork(etherType, d).Some?
    ensures var n, h := DecodeNetwork(etherType, d).value, IpOf(etherType, d);
      && IpOk(h) && EtherType(h) == etherType && IpBytes(h, n.protocol) == d[..n.headerLength]
  {
    hide Bytes16, Be16, Mapped;
    assert etherType == ETHER_IPV4 || etherType == ETHER_IPV6;
    if etherType == ETHER_IPV4 {
      V4Rebuilt(d, d[0] % 16 * 4);
    } else {
      V6Rebuilt(d);
    }
  }

  lemma TransportRebuilt(protocol: u8, d: seq<u8>)
    requires DecodeTransport(protocol, d).Some?
    ensures var h := TransportOf(protocol, d);
      TransportOk(h) && Protocol(h) == protocol && TransportBytes(h) <= d
  {
    var h := TransportOf(protocol, d);
    match h
    case Tcp(_, _, _, _, _, _) =>
      TcpRebuilt(d);
    case Udp(_, _, _) => assert TransportBytes(h) == d[..8];
    case Icmp(_, _, _) => assert TransportBytes(h) == d[..8];
    case Icmp6(_, _, _) => assert TransportBytes(h) == d[..4];
  }

  lemma TcpRebuilt(d: seq<u8>)
    requires |d| >= 20
    ensures Bytes16(Be16(d[0], d[1])) + Bytes16(Be16(d[2], d[3])) + d[4..12] + [d[12], d[13]] + d[14..20] == d[..20]
  {
    hide Bytes16, Be16;
    TwoBytes(d, 0);
    TwoBytes(d, 2);
    TwoBytes(d, 12);
    Onwards(d, 2, 4);
    Onwards(d, 4, 12);
    Onwards(d, 12, 14);
    Onwards(d, 14, 20);
  }

  lemma LinkRebuilt(d: seq<u8>, timestampUs: i64)
    requires Decode(d, timestampUs).Some? && EtherType(FrameOf(d, timestampUs).ip) == LinkType(d).value.0
    ensures LinkBytes(FrameOf(d, timestampUs)) == d[..LinkType(d).value.1]
  {
    hide DecodeNetwork, DecodeTransport, IpOf, TransportOf;
    TypeDecodes(FrameOf(d, timestampUs).ip);
  }

  lemma Rebuilt(d: seq<u8>, timestampUs: i64)
    requires Decode(d, timestampUs).Some?
    ensures var f := FrameOf(d, timestampUs);
      WellFormed(f) && Build(f) <= d
  {
    var f := FrameOf(d, timestampUs);
    var (etherType, offset) := LinkType(d).value;
    var ip := d[offset..];
    var n := DecodeNetwork(etherType, ip).value;
    var transport := ip[n.headerLength..];
    IpRebuilt(etherType, ip);
    TransportRebuilt(n.protocol, transport);
    LinkRebuilt(d, timestampUs);
    hide DecodeNetwork, DecodeTransport, LinkType, LinkBytes, IpBytes, IpOf, IpOk;
    hide TransportBytes, TransportOf, TransportOk;
    PrefixChain(d, offset, n.headerLength, TransportBytes(f.transport));
  }

  lemma PrefixChain(d: seq<u8>, a: nat, b: nat, c: seq<u8>)
    requires a <= |d| && b <= |d[a..]| && c <= d[a..][b..]
    ensures d[..a] + (d[a..][..b] + c) <= d
  {
    assert d == d[..a] + (d[a..][..b] + d[a..][b..]);
  }

  lemma PrefixDecodes(f: Frame, d: seq<u8>, timestampUs: i64)
    requires WellFormed(f) && Build(f) <= d
    ensures Decode(d, timestampUs) == Some(PacketOf(f, timestampUs))
  {
    hide Decode, Build, PacketOf;
    BuiltDecodes(f, d[|Build(f)|..], timestampUs);
    assert Build(f) + d[|Build(f)|..] == d;
  }

  /** The decoder accepts a capture exactly when it begins with a well-formed frame, and then
      returns that frame's fields. */
  lemma DecodesIffFrame(d: seq<u8>, timestampUs: i64, p: ParsedPacket)
    ensures Decode(d, timestampUs) == Some(p) <==>
            exists f :: WellFormed(f) && Build(f) <= d && PacketOf(f, timestampUs) == p
  {
    hide Decode, Build, PacketOf, WellFormed, FrameOf;
    if Decode(d, timestampUs) == Some(p) {
      Rebuilt(d, timestampUs);
      PrefixDecodes(FrameOf(d, timestampUs), d, timestampUs);
    }
    if f :| WellFormed(f) && Build(f) <= d && PacketOf(f, timestampUs) == p {
      PrefixDecodes(f, d, timestampUs);
    }
  }

  /** Bytes captured after a frame that decodes change nothing. */
  lemma TrailingBytesIgnored(d: seq<u8>, more: seq<u8>, timestampUs: i64)
    requires Decode(d, timestampUs).Some?
    ensures Decode(d + more, timestampUs) == Decode(d, timestampUs)
  {
    hide Decode, Build, PacketOf, WellFormed, FrameOf;
    Rebuilt(d, timestampUs);
    PrefixDecodes(FrameOf(d, timestampUs), d, timestampUs);
    PrefixDecodes(FrameOf(d, timestampUs), d + more, timestampUs);
  }

  /** One 802.1Q tag before an IP EtherType changes nothing, whether or not the frame decodes. */
  lemma TagTransparent(d: seq<u8>, tci: seq<u8>, timestampUs: i64)
    requires |d| >= 14 && |tci| == 2
    requires (d[12] == 0x08 && d[13] == 0x00) || (d[12] == 0x86 && d[13] == 0xDD)
    ensures Decode(d[..12] + [0x81, 0x00] + tci + d[12..], timestampUs) == Decode(d, timestampUs)
  {
    hide DecodeIp;
    var tagged := d[..12] + [0x81, 0x00] + tci + d[12..];
    assert tagged[12] == 0x81 && tagged[13] == 0x00 && tagged[16] == d[12] && tagged[17] == d[13];
    assert tagged[18..] == d[14..];
  }
}
