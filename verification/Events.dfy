/** The values that travel through the pipeline. */
module Events {
  import opened Numbers

  type IpAddr = s: seq<u8> | |s| == 16 witness seq(16, _ => 0)

  /** A unidirectional flow: IPv4 addresses are held in IPv4-mapped form, and an ICMP flow
      keeps type * 256 + code in the source port. */
  datatype FlowKey = FlowKey(srcIp: IpAddr, dstIp: IpAddr, srcPort: u16, dstPort: u16, protocol: u8)

  datatype FlowState = FlowState(key: FlowKey, startUs: i64, lastSeenUs: i64, packetCount: u64, byteCount: u64)

  datatype FlowEventType = Start | End | Stats

  datatype ExpireReason = IdleTimeout | TcpTeardown

  /** The reason means something only for End. */
  datatype FlowEvent =
    FlowEvent(eventType: FlowEventType, state: FlowState, eventTimestampUs: i64, reason: ExpireReason)

  datatype ParsedPacket = ParsedPacket(
    srcIp: IpAddr, dstIp: IpAddr, srcPort: u16, dstPort: u16, protocol: u8,
    wireLength: u32, timestampUs: i64, tcpFin: bool, tcpRst: bool, isIpv6: bool)

  const IPPROTO_ICMP: u8 := 1
  const IPPROTO_TCP: u8 := 6
  const IPPROTO_UDP: u8 := 17
  const IPPROTO_ICMPV6: u8 := 58
}
