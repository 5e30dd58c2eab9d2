/** The text that names a flow, in the records and as the Kafka message key. */
module FlowNames {
  import opened Numbers
  import opened Events
  import opened AddressText

  predicate IsIpv4Mapped(ip: IpAddr) {
    && ip[10] == 0xFF && ip[11] == 0xFF
    && ip[0] == 0 && ip[1] == 0 && ip[2] == 0 && ip[3] == 0 && ip[4] == 0
    && ip[5] == 0 && ip[6] == 0 && ip[7] == 0 && ip[8] == 0 && ip[9] == 0
  }

  /** mixed: how the platform writes the addresses ::a.b.c.d. */
  function IpText(ip: IpAddr, mixed: bool): string {
    if IsIpv4Mapped(ip) then Dotted(ip[12..]) else V6Text(ip, mixed)
  }

  function Bracketed(ip: IpAddr, mixed: bool): string {
    if IsIpv4Mapped(ip) then IpText(ip, mixed) else "[" + IpText(ip, mixed) + "]"
  }

  function FlowId(k: FlowKey, mixed: bool): string {
    Bracketed(k.srcIp, mixed) + ":" + Digits(k.srcPort, 10) + "-" +
    Bracketed(k.dstIp, mixed) + ":" + Digits(k.dstPort, 10) + "/" +
    Digits(k.protocol, 10)
  }

  // ---------------------------------------------------------------- reading it back

  /** The address before a colon, and what comes after the colon. */
  function ParseIp(s: string): (IpAddr, string) {
    if s != "" && s[0] == '[' then
      var (text, rest) := Split(s[1..], ']');
      (ParseV6(text), if rest == "" then "" else rest[1..])
    else
      var (text, rest) := Split(s, ':');
      ([0, 0, 0, 0, 0, 0, 0, 0, 0, 0, 0xFF, 0xFF] + ParseDotted(text), rest)
  }

  function ParseFlowId(s: string): FlowKey {
    var (srcIp, r1) := ParseIp(s);
    var (srcPort, r2) := Split(r1, '-');
    var (dstIp, r3) := ParseIp(r2);
    var (dstPort, protocol) := Split(r3, '/');
    FlowKey(srcIp, dstIp, ParseDigits(srcPort, 10) % 0x1_0000, ParseDigits(dstPort, 10) % 0x1_0000,
            ParseDigits(protocol, 10) % 0x100)
  }

  lemma MappedRestored(ip: IpAddr)
    requires IsIpv4Mapped(ip)
    ensures [0, 0, 0, 0, 0, 0, 0, 0, 0, 0, 0xFF, 0xFF] + ip[12..] == ip
  {
  }

  lemma V4PartRoundTrip(ip: IpAddr, mixed: bool, rest: string)
    requires IsIpv4Mapped(ip)
    ensures ParseIp(Bracketed(ip, mixed) + ":" + rest) == (ip, rest)
  {
    hide Dotted, ParseDotted, Split, IsIpv4Mapped, ParseV6, V6Text;
    var text := Dotted(ip[12..]);
    var s := text + ":" + rest;
    DottedOnly(ip[12..]);
    DottedRoundTrip(ip[12..]);
    MappedRestored(ip);
    assert s == text + [':'] + rest;
    assert ':' !in text;
    assert s[0] == text[0];
    SplitFirst(text, ':', rest);
  }

  lemma BracketShape(text: string, rest: string)
    ensures var s := "[" + text + "]" + ":" + rest;
      s[0] == '[' && s[1..] == text + [']'] + (":" + rest)
    ensures (":" + rest)[1..] == rest
  {
  }

  lemma NoBracket(text: string)
    requires Only(text, V6CHARS)
    ensures ']' !in text
  {
  }

  lemma V6PartRoundTrip(ip: IpAddr, mixed: bool, rest: string)
    requires !IsIpv4Mapped(ip)
    ensures ParseIp(Bracketed(ip, mixed) + ":" + rest) == (ip, rest)
  {
    hide Dotted, ParseDotted, Split, IsIpv4Mapped, ParseV6, V6Text, Only;
    var text := V6Text(ip, mixed);
    V6RoundTrip(ip, mixed);
    NoBracket(text);
    BracketShape(text, rest);
    SplitFirst(text, ']', ":" + rest);
  }

  lemma IpPartRoundTrip(ip: IpAddr, mixed: bool, rest: string)
    ensures ParseIp(Bracketed(ip, mixed) + ":" + rest) == (ip, rest)
  {
    if IsIpv4Mapped(ip) {
      V4PartRoundTrip(ip, mixed, rest);
    } else {
      V6PartRoundTrip(ip, mixed, rest);
    }
  }

  lemma NumberBefore(n: nat, c: char, rest: string)
    requires c == '-' || c == '/'
    ensures Split(Digits(n, 10) + [c] + rest, c) == (Digits(n, 10), rest)
  {
    hide Digits, Split;
    DecimalOnly(n);
    assert c !in Digits(n, 10);
    SplitFirst(Digits(n, 10), c, rest);
  }

  lemma Regrouped(a: string, b: string, c: string, d: string, e: string)
    ensures a + ":" + b + "-" + c + ":" + d + "/" + e == a + ":" + (b + ['-'] + (c + ":" + (d + ['/'] + e)))
  {
  }

  /** The key can be read back from its text, IPv4 and IPv6 endpoints mixed freely. */
  lemma FlowIdRoundTrip(k: FlowKey, mixed: bool)
    ensures ParseFlowId(FlowId(k, mixed)) == k
  {
    hide Bracketed, ParseIp, Digits, ParseDigits, Split;
    var sp, dp, pr := Digits(k.srcPort, 10), Digits(k.dstPort, 10), Digits(k.protocol, 10);
    Regrouped(Bracketed(k.srcIp, mixed), sp, Bracketed(k.dstIp, mixed), dp, pr);
    var last := dp + ['/'] + pr;
    var second := Bracketed(k.dstIp, mixed) + ":" + last;
    IpPartRoundTrip(k.srcIp, mixed, sp + ['-'] + second);
    NumberBefore(k.srcPort, '-', second);
    IpPartRoundTrip(k.dstIp, mixed, last);
    NumberBefore(k.dstPort, '/', pr);
    DigitsRoundTrip(k.srcPort, 10);
    DigitsRoundTrip(k.dstPort, 10);
    DigitsRoundTrip(k.protocol, 10);
  }

  /** Different flows never share a name, and so never share a message key. */
  lemma FlowIdInjective(a: FlowKey, b: FlowKey, mixed: bool)
    requires FlowId(a, mixed) == FlowId(b, mixed)
    ensures a == b
  {
    FlowIdRoundTrip(a, mixed);
    FlowIdRoundTrip(b, mixed);
  }

  // ---------------------------------------------------------------- its characters

  predicate Ascii(s: string) {
    forall i | 0 <= i < |s| :: s[i] < '\U{80}'
  }

  lemma AsciiConcat(a: string, b: string)
    ensures Ascii(a + b) <==> Ascii(a) && Ascii(b)
  {
    if Ascii(a + b) {
      assert forall i | 0 <= i < |a| :: (a + b)[i] == a[i];
      assert forall i | 0 <= i < |b| :: (a + b)[|a| + i] == b[i];
    }
  }

  lemma OnlyAscii(s: string, allowed: string)
    requires Only(s, allowed) && Ascii(allowed)
    ensures Ascii(s)
  {
  }

  lemma IpTextAscii(ip: IpAddr, mixed: bool)
    ensures Ascii(IpText(ip, mixed)) && Ascii(Bracketed(ip, mixed))
  {
    hide Dotted, V6Text, IsIpv4Mapped;
    if IsIpv4Mapped(ip) {
      DottedOnly(ip[12..]);
      OnlyAscii(Dotted(ip[12..]), DECIMAL + ".");
    } else {
      V6RoundTrip(ip, mixed);
      OnlyAscii(V6Text(ip, mixed), V6CHARS);
      AsciiConcat("[", V6Text(ip, mixed));
      AsciiConcat("[" + V6Text(ip, mixed), "]");
    }
  }

  lemma DecimalAscii(n: nat)
    ensures Ascii(Digits(n, 10))
  {
    DecimalOnly(n);
    OnlyAscii(Digits(n, 10), DECIMAL);
  }

  lemma FlowIdAscii(k: FlowKey, mixed: bool)
    ensures Ascii(FlowId(k, mixed))
  {
    hide Bracketed, Digits, Ascii;
    var a, b := Bracketed(k.srcIp, mixed), Digits(k.srcPort, 10);
    var c, d := Bracketed(k.dstIp, mixed), Digits(k.dstPort, 10);
    IpTextAscii(k.srcIp, mixed);
    IpTextAscii(k.dstIp, mixed);
    DecimalAscii(k.srcPort);
    DecimalAscii(k.dstPort);
    DecimalAscii(k.protocol);
    Separators();
    AsciiConcat(a, ":");
    AsciiConcat(a + ":", b);
    AsciiConcat(a + ":" + b, "-");
    AsciiConcat(a + ":" + b + "-", c);
    AsciiConcat(a + ":" + b + "-" + c, ":");
    AsciiConcat(a + ":" + b + "-" + c + ":", d);
    AsciiConcat(a + ":" + b + "-" + c + ":" + d, "/");
    AsciiConcat(a + ":" + b + "-" + c + ":" + d + "/", Digits(k.protocol, 10));
  }

  lemma Separators()
    ensures Ascii(":") && Ascii("-") && Ascii("/")
  {
  }
}
