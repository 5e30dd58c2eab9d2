/** From the bytes of a frame to the name of its flow, which is also the Kafka message key. */
module FrameNames {
  import opened Numbers
  import opened Events
  import opened Options
  import opened AddressText
  import opened FlowNames
  import opened FlowTableSpec
  import opened Frames
  import opened PacketDecoder

  /** The text of a port pair and protocol as the transport header has them. */
  function SourcePort(h: TransportHeader): string {
    match h
    case Tcp(srcPort, _, _, _, _, _) => Digits(srcPort, 10)
    case Udp(srcPort, _, _) => Digits(srcPort, 10)
    case Icmp(kind, code, _) => Digits(kind * 256 + code, 10)
    case Icmp6(kind, code, _) => Digits(kind * 256 + code, 10)
  }

  function DestinationPort(h: TransportHeader): string {
    match h
    case Tcp(_, dstPort, _, _, _, _) => Digits(dstPort, 10)
    case Udp(_, dstPort, _) => Digits(dstPort, 10)
    case Icmp(_, _, _) => "0"
    case Icmp6(_, _, _) => "0"
  }

  function ProtocolText(h: TransportHeader): string {
    match h
    case Tcp(_, _, _, _, _, _) => "6"
    case Udp(_, _, _) => "17"
    case Icmp(_, _, _) => "1"
    case Icmp6(_, _, _) => "58"
  }

  lemma SmallNumbers()
    ensures Digits(0, 10) == "0" && Digits(1, 10) == "1" && Digits(6, 10) == "6"
    ensures Digits(17, 10) == "17" && Digits(58, 10) == "58"
  {
  }

  lemma MappedPrints(addr4: seq<u8>, mixed: bool)
    requires |addr4| == 4
    ensures IsIpv4Mapped(AsV6(addr4)) && Bracketed(AsV6(addr4), mixed) == IpText(AsV6(addr4), mixed) == Dotted(addr4)
  {
    hide Dotted;
    assert AsV6(addr4)[12..] == addr4;
  }

  /** An IPv4 frame, with whatever follows it, is a packet of the flow named by the dotted addresses
      of its header, its ports or ICMP type and code, and its protocol number. */
  lemma V4FrameNamed(f: Frame, payload: seq<u8>, timestampUs: i64, mixed: bool)
    requires WellFormed(f) && f.ip.V4?
    ensures var r, h := Decode(Build(f) + payload, timestampUs), f.transport;
      && r.Some?
      && IpText(r.value.srcIp, mixed) == Dotted(f.ip.src) && IpText(r.value.dstIp, mixed) == Dotted(f.ip.dst)
      && FlowId(KeyFromPacket(r.value), mixed) ==
         Dotted(f.ip.src) + ":" + SourcePort(h) + "-" + Dotted(f.ip.dst) + ":" + DestinationPort(h)
         + "/" + ProtocolText(h)
  {
    BuiltDecodes(f, payload, timestampUs);
    MappedPrints(f.ip.src, mixed);
    MappedPrints(f.ip.dst, mixed);
    SmallNumbers();
    hide Decode, Build, Dotted, Digits, IpText, Bracketed, AsV6;
  }

  /** The same for an IPv6 frame, whose addresses are written in brackets unless they are
      IPv4-mapped. */
  lemma V6FrameNamed(f: Frame, payload: seq<u8>, timestampUs: i64, mixed: bool)
    requires WellFormed(f) && f.ip.V6?
    ensures var r, h := Decode(Build(f) + payload, timestampUs), f.transport;
      && r.Some?
      && FlowId(KeyFromPacket(r.value), mixed) ==
         Endpoint(f.ip.src6, mixed) + ":" + SourcePort(h) + "-" + Endpoint(f.ip.dst6, mixed) + ":" + DestinationPort(h)
         + "/" + ProtocolText(h)
  {
    BuiltDecodes(f, payload, timestampUs);
    EndpointIs(f.ip.src6, mixed);
    EndpointIs(f.ip.dst6, mixed);
    SmallNumbers();
    hide Decode, Build, Digits, Bracketed, Endpoint;
  }

  function Endpoint(ip: IpAddr, mixed: bool): string {
    if ip[..12] == [0, 0, 0, 0, 0, 0, 0, 0, 0, 0, 0xFF, 0xFF] then Dotted(ip[12..])
    else "[" + V6Text(ip, mixed) + "]"
  }

  lemma EndpointIs(ip: IpAddr, mixed: bool)
    ensures Endpoint(ip, mixed) == Bracketed(ip, mixed)
  {
    hide Dotted, V6Text;
    if IsIpv4Mapped(ip) {
      assert ip[..12] == [0, 0, 0, 0, 0, 0, 0, 0, 0, 0, 0xFF, 0xFF];
    } else if ip[..12] == [0, 0, 0, 0, 0, 0, 0, 0, 0, 0, 0xFF, 0xFF] {
      assert forall i | 0 <= i < 12 :: ip[i] == ip[..12][i];
    }
  }

  lemma NextDigit(n: nat, d: nat, front: string, last: string)
    requires 0 < n && d < 10 && Digits(n, 10) == front && last == ["0123456789"[d]]
    ensures Digits(10 * n + d, 10) == front + last
  {
    assert (10 * n + d) / 10 == n && (10 * n + d) % 10 == d;
  }

  lemma ExampleNumbers()
    ensures Digits(192, 10) == "192" && Digits(168, 10) == "168" && Digits(10, 10) == "10" && Digits(80, 10) == "80"
    ensures Digits(54321, 10) == "54321"
  {
    SmallNumbers();
    assert Digits(5, 10) == "5" && Digits(8, 10) == "8";
    hide Digits;
    NextDigit(1, 9, "1", "9");
    NextDigit(19, 2, "19", "2");
    NextDigit(1, 6, "1", "6");
    NextDigit(16, 8, "16", "8");
    NextDigit(1, 0, "1", "0");
    NextDigit(8, 0, "8", "0");
    NextDigit(5, 4, "5", "4");
    NextDigit(54, 3, "54", "3");
    NextDigit(543, 2, "543", "2");
    NextDigit(5432, 1, "5432", "1");
  }

  lemma ExampleAddresses()
    ensures Dotted([192, 168, 1, 10]) == "192.168.1.10" && Dotted([10, 0, 0, 1]) == "10.0.0.1"
  {
    SmallNumbers();
    ExampleNumbers();
    hide Digits;
    assert "1" + "." + "10" == "1.10" && "168" + "." + "1.10" == "168.1.10";
    assert "192" + "." + "168.1.10" == "192.168.1.10";
    assert "0" + "." + "1" == "0.1" && "0" + "." + "0.1" == "0.0.1" && "10" + "." + "0.0.1" == "10.0.0.1";
  }

  lemma ExampleJoined()
    ensures "192.168.1.10" + ":" + "54321" + "-" + "10.0.0.1" + ":" + "80" + "/" + "6" ==
            "192.168.1.10:54321-10.0.0.1:80/6"
  {
    assert "192.168.1.10" + ":" == "192.168.1.10:" && "192.168.1.10:" + "54321" == "192.168.1.10:54321";
    assert "192.168.1.10:54321" + "-" == "192.168.1.10:54321-";
    assert "192.168.1.10:54321-" + "10.0.0.1" == "192.168.1.10:54321-10.0.0.1";
    assert "192.168.1.10:54321-10.0.0.1" + ":" == "192.168.1.10:54321-10.0.0.1:";
    assert "192.168.1.10:54321-10.0.0.1:" + "80" == "192.168.1.10:54321-10.0.0.1:80";
    assert "192.168.1.10:54321-10.0.0.1:80" + "/" == "192.168.1.10:54321-10.0.0.1:80/";
    assert "192.168.1.10:54321-10.0.0.1:80/" + "6" == "192.168.1.10:54321-10.0.0.1:80/6";
  }

  /** The name of a TCP flow, letter by letter. */
  lemma ExampleName(mixed: bool)
    ensures FlowId(FlowKey(AsV6([192, 168, 1, 10]), AsV6([10, 0, 0, 1]), 54321, 80, 6), mixed) ==
            "192.168.1.10:54321-10.0.0.1:80/6"
  {
    MappedPrints([192, 168, 1, 10], mixed);
    MappedPrints([10, 0, 0, 1], mixed);
    SmallNumbers();
    ExampleNumbers();
    ExampleAddresses();
    ExampleJoined();
    hide Digits, Bracketed, AsV6, Dotted, IpText, IsIpv4Mapped;
  }
}
