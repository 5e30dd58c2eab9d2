/** Numbers and IP addresses as text, with parsers that read the text back.

    IPv6 text follows section 4 of RFC 5952: lower-case digits, no leading zeros, and the first
    longest run of two or more zero groups written as "::". A platform may write the addresses
    ::a.b.c.d of section 2.2 of RFC 4291 in mixed notation; both styles are covered. */
module AddressText {
  import opened Numbers
  import opened Events

  const DIGITS := "0123456789abcdef"

  function DigitValue(c: char): nat {
    if '0' <= c <= '9' then (c - '0') as nat
    else if 'a' <= c <= 'f' then (c - 'a') as nat + 10
    else 0
  }

  function Digits(n: nat, base: nat): string
    requires base == 10 || base == 16
  {
    if n < base then [DIGITS[n]] else Digits(n / base, base) + [DIGITS[n % base]]
  }

  function ParseDigits(s: string, base: nat): nat {
    if s == "" then 0 else ParseDigits(s[..|s| - 1], base) * base + DigitValue(s[|s| - 1])
  }

  lemma {:induction false} DigitsRoundTrip(n: nat, base: nat)
    requires base == 10 || base == 16
    ensures ParseDigits(Digits(n, base), base) == n
  {
    DigitInverse();
    if n < base {
      assert Digits(n, base)[..0] == "";
    } else {
      var front := Digits(n / base, base);
      DigitsRoundTrip(n / base, base);
      assert (front + [DIGITS[n % base]])[..|front|] == front;
    }
  }

  lemma DigitInverse()
    ensures forall d: nat | d < 16 :: DigitValue(DIGITS[d]) == d
  {
  }

  predicate Only(s: string, allowed: string) {
    forall i | 0 <= i < |s| :: s[i] in allowed
  }

  lemma OnlyConcat(a: string, b: string, allowed: string)
    ensures Only(a + b, allowed) <==> Only(a, allowed) && Only(b, allowed)
  {
    if Only(a + b, allowed) {
      assert forall i | 0 <= i < |a| :: (a + b)[i] == a[i];
      assert forall i | 0 <= i < |b| :: (a + b)[|a| + i] == b[i];
    }
  }

  lemma {:induction false} DigitsOnly(n: nat, base: nat)
    requires base == 10 || base == 16
    ensures Digits(n, base) != "" && Only(Digits(n, base), DIGITS[..base])
  {
    if n >= base {
      DigitsOnly(n / base, base);
    }
    assert DIGITS[n % base] == DIGITS[..base][n % base];
  }

  // ---------------------------------------------------------------- splitting

  /** What comes before the first c, and what comes after it. */
  function Split(s: string, c: char): (string, string) {
    if s == "" then ("", "")
    else if s[0] == c then ("", s[1..])
    else
      var (before, after) := Split(s[1..], c);
      ([s[0]] + before, after)
  }

  lemma {:induction false} SplitFirst(a: string, c: char, b: string)
    requires c !in a
    ensures Split(a + [c] + b, c) == (a, b)
  {
    var s := a + [c] + b;
    if a == "" {
      assert s[1..] == b;
    } else {
      assert s[1..] == a[1..] + [c] + b;
      SplitFirst(a[1..], c, b);
      assert [a[0]] + a[1..] == a && s[0] == a[0];
    }
  }

  lemma {:induction false} SplitNone(a: string, c: char)
    requires c !in a
    ensures Split(a, c) == (a, "")
  {
    if a != "" {
      SplitNone(a[1..], c);
      assert [a[0]] + a[1..] == a;
    }
  }

  // ---------------------------------------------------------------- IPv4

  function Dotted(a: seq<u8>): string
    requires |a| == 4
  {
    Digits(a[0], 10) + "." + (Digits(a[1], 10) + "." + (Digits(a[2], 10) + "." + Digits(a[3], 10)))
  }

  function Byte(s: string): u8 {
    ParseDigits(s, 10) % 256
  }

  function ParseDotted(s: string): seq<u8> {
    var (a, r1) := Split(s, '.');
    var (b, r2) := Split(r1, '.');
    var (c, d) := Split(r2, '.');
    [Byte(a), Byte(b), Byte(c), Byte(d)]
  }

  const DECIMAL := "0123456789"

  lemma DecimalOnly(n: nat)
    ensures Only(Digits(n, 10), DECIMAL) && Digits(n, 10) != ""
  {
    DigitsOnly(n, 10);
    assert DIGITS[..10] == DECIMAL;
  }

  lemma FieldRoundTrip(x: u8, rest: string)
    ensures Split(Digits(x, 10) + "." + rest, '.') == (Digits(x, 10), rest)
    ensures Byte(Digits(x, 10)) == x
  {
    hide Digits, Split, ParseDigits;
    DecimalOnly(x);
    DigitsRoundTrip(x, 10);
    assert '.' !in Digits(x, 10);
    assert Digits(x, 10) + "." + rest == Digits(x, 10) + ['.'] + rest;
    SplitFirst(Digits(x, 10), '.', rest);
  }

  lemma DottedRoundTrip(a: seq<u8>)
    requires |a| == 4
    ensures ParseDotted(Dotted(a)) == a
  {
    hide Digits, Split, Byte;
    FieldRoundTrip(a[0], Digits(a[1], 10) + "." + (Digits(a[2], 10) + "." + Digits(a[3], 10)));
    FieldRoundTrip(a[1], Digits(a[2], 10) + "." + Digits(a[3], 10));
    FieldRoundTrip(a[2], Digits(a[3], 10));
    FieldRoundTrip(a[3], "");
  }

  lemma DottedOnly(a: seq<u8>)
    requires |a| == 4
    ensures Only(Dotted(a), DECIMAL + ".") && '.' in Dotted(a)
  {
    DecimalOnly(a[0]);
    DecimalOnly(a[1]);
    DecimalOnly(a[2]);
    DecimalOnly(a[3]);
    hide Digits;
    assert Dotted(a)[|Digits(a[0], 10)|] == '.';
  }

  // ---------------------------------------------------------------- IPv6

  function Words(ip: IpAddr): (ws: seq<u16>)
    ensures |ws| == 8
  {
    seq(8, i requires 0 <= i < 8 => Be16(ip[2 * i], ip[2 * i + 1]))
  }

  function OfWords(ws: seq<u16>): IpAddr
    requires |ws| == 8
  {
    seq(16, j requires 0 <= j < 16 => if j % 2 == 0 then ws[j / 2] / 256 else ws[j / 2] % 256)
  }

  lemma HalfRoundTrip(hi: u8, lo: u8)
    ensures Be16(hi, lo) / 256 == hi && Be16(hi, lo) % 256 == lo
  {
  }

  lemma WordsRoundTrip(ip: IpAddr)
    ensures OfWords(Words(ip)) == ip
  {
    hide Be16;
    forall j | 0 <= j < 16
      ensures OfWords(Words(ip))[j] == ip[j]
    {
      var i := j / 2;
      assert Words(ip)[i] == Be16(ip[2 * i], ip[2 * i + 1]);
      HalfRoundTrip(ip[2 * i], ip[2 * i + 1]);
    }
  }

  /** How many zero groups start at position i. */
  function ZeroRun(ws: seq<u16>, i: nat): nat
    requires i <= |ws|
    decreases |ws| - i
  {
    if i == |ws| || ws[i] != 0 then 0 else 1 + ZeroRun(ws, i + 1)
  }

  /** Where the first longest run of zero groups from position i on starts. */
  function LongestRun(ws: seq<u16>, i: nat): (r: nat)
    requires i < |ws|
    ensures i <= r < |ws|
    ensures forall j | i <= j < |ws| :: ZeroRun(ws, j) <= ZeroRun(ws, r)
    ensures forall j | i <= j < r :: ZeroRun(ws, j) < ZeroRun(ws, r)
    decreases |ws| - i
  {
    if i + 1 == |ws| then i
    else
      var later := LongestRun(ws, i + 1);
      if ZeroRun(ws, later) > ZeroRun(ws, i) then later else i
  }

  function Zeros(n: nat): seq<u16> {
    seq(n, _ => 0)
  }

  lemma {:induction false} RunIsZero(ws: seq<u16>, i: nat)
    requires i <= |ws|
    ensures i + ZeroRun(ws, i) <= |ws| && ws[i..i + ZeroRun(ws, i)] == Zeros(ZeroRun(ws, i))
    decreases |ws| - i
  {
    if i < |ws| && ws[i] == 0 {
      RunIsZero(ws, i + 1);
      assert ws[i..i + ZeroRun(ws, i)] == [0] + ws[i + 1..i + ZeroRun(ws, i)];
    }
  }

  function Join(ws: seq<u16>): string {
    if ws == [] then ""
    else if |ws| == 1 then Digits(ws[0], 16)
    else Digits(ws[0], 16) + ":" + Join(ws[1..])
  }

  function V6Text(ip: IpAddr, mixed: bool): string {
    var ws := Words(ip);
    var start := LongestRun(ws, 0);
    var length := ZeroRun(ws, start);
    if mixed && start == 0 && length == 6 then "::" + Dotted(ip[12..])
    else if length < 2 then Join(ws)
    else
      RunIsZero(ws, start);
      Join(ws[..start]) + "::" + Join(ws[start + length..])
  }

  function ParseJoin(s: string): seq<u16>
    decreases |s|
  {
    if s == "" then []
    else
      SplitShrinks(s, ':');
      var (first, rest) := Split(s, ':');
      [ParseDigits(first, 16) % 0x1_0000] + ParseJoin(rest)
  }

  lemma {:induction false} SplitShrinks(s: string, c: char)
    requires s != ""
    ensures |Split(s, c).1| < |s|
  {
    if s[0] != c && |s| > 1 {
      SplitShrinks(s[1..], c);
    }
  }

  /** Where the first "::" is, or the length when there is none. */
  function DoubleColon(s: string): nat {
    if s == "" then 0
    else if |s| >= 2 && s[0] == ':' && s[1] == ':' then 0
    else 1 + DoubleColon(s[1..])
  }

  function ParseV6(s: string): IpAddr {
    if '.' in s then
      if |s| < 2 then seq(16, _ => 0) else seq(12, _ => 0) + ParseDotted(s[2..])
    else
      var i := DoubleColon(s);
      if i + 2 > |s| then OfEight(ParseJoin(s))
      else
        var left, right := ParseJoin(s[..i]), ParseJoin(s[i + 2..]);
        OfEight(left + Zeros(Max(8 - |left| - |right|, 0)) + right)
  }

  function OfEight(ws: seq<u16>): IpAddr {
    if |ws| == 8 then OfWords(ws) else seq(16, _ => 0)
  }

  const HEX := DIGITS

  lemma HexOnly(w: u16)
    ensures Only(Digits(w, 16), HEX) && Digits(w, 16) != ""
  {
    DigitsOnly(w, 16);
    assert DIGITS[..16] == HEX;
  }

  lemma GroupRoundTrip(w: u16, rest: string)
    ensures Split(Digits(w, 16) + ":" + rest, ':') == (Digits(w, 16), rest)
    ensures Split(Digits(w, 16), ':') == (Digits(w, 16), "")
    ensures ParseDigits(Digits(w, 16), 16) == w && Digits(w, 16) != ""
  {
    hide Digits, Split, ParseDigits;
    HexOnly(w);
    DigitsRoundTrip(w, 16);
    assert ':' !in Digits(w, 16);
    assert Digits(w, 16) + ":" + rest == Digits(w, 16) + [':'] + rest;
    SplitFirst(Digits(w, 16), ':', rest);
    SplitNone(Digits(w, 16), ':');
  }

  lemma {:induction false} JoinRoundTrip(ws: seq<u16>)
    ensures ParseJoin(Join(ws)) == ws
  {
    hide Digits, Split, ParseDigits;
    if ws != [] {
      GroupRoundTrip(ws[0], Join(ws[1..]));
      if |ws| == 1 {
        assert ParseJoin("") == [];
        assert ParseJoin(Join(ws)) == [ws[0]] + [];
      } else {
        JoinRoundTrip(ws[1..]);
        assert ParseJoin(Join(ws)) == [ws[0]] + ws[1..];
      }
    }
  }

  /** No two colons in a row, and none at either end. */
  predicate Single(s: string) {
    && (s != "" ==> s[0] != ':' && s[|s| - 1] != ':')
    && forall i | 0 <= i < |s| - 1 :: s[i] != ':' || s[i + 1] != ':'
  }

  /** A word without colons, put before a colon and what follows. */
  lemma GluedSingle(a: string, b: string)
    requires a != "" && ':' !in a && b != "" && Single(b)
    ensures Single(a + ":" + b)
  {
    var s := a + ":" + b;
    assert s[|a|] == ':' && s[|s| - 1] == b[|b| - 1];
    forall i | 0 <= i < |s| - 1
      ensures s[i] != ':' || s[i + 1] != ':'
    {
      if i < |a| {
        assert s[i] == a[i];
      } else if i == |a| {
        assert s[i + 1] == b[0];
      } else {
        assert s[i] == b[i - |a| - 1] && s[i + 1] == b[i - |a|];
      }
    }
  }

  lemma {:induction false} JoinAlphabet(ws: seq<u16>)
    ensures Only(Join(ws), HEX + ":") && (ws != [] ==> Join(ws) != "")
  {
    if ws != [] {
      HexOnly(ws[0]);
      hide Digits;
      JoinAlphabet(ws[1..]);
    }
  }

  lemma {:induction false} JoinSingle(ws: seq<u16>)
    ensures Single(Join(ws))
  {
    if ws != [] {
      HexOnly(ws[0]);
      hide Digits, Single;
      assert ':' !in Digits(ws[0], 16);
      JoinSingle(ws[1..]);
      JoinAlphabet(ws[1..]);
      if |ws| > 1 {
        GluedSingle(Digits(ws[0], 16), Join(ws[1..]));
      } else {
        WordSingle(Digits(ws[0], 16));
      }
    }
  }

  lemma WordSingle(a: string)
    requires ':' !in a
    ensures Single(a)
  {
  }

  lemma {:induction false} DoubleColonFirst(a: string, b: string)
    requires forall i | 0 <= i < |a| - 1 :: a[i] != ':' || a[i + 1] != ':'
    requires a != "" ==> a[|a| - 1] != ':'
    ensures DoubleColon(a + "::" + b) == |a|
  {
    var s := a + "::" + b;
    if a != "" {
      assert s[1..] == a[1..] + "::" + b;
      assert s[0] == a[0];
      if |a| > 1 {
        assert s[1] == a[1];
      }
      DoubleColonFirst(a[1..], b);
    }
  }

  lemma {:induction false} DoubleColonNone(a: string)
    requires forall i | 0 <= i < |a| - 1 :: a[i] != ':' || a[i + 1] != ':'
    ensures DoubleColon(a) == |a|
  {
    if a != "" {
      DoubleColonNone(a[1..]);
    }
  }

  lemma NoDots(s: string)
    requires Only(s, HEX + ":")
    ensures '.' !in s
  {
  }

  lemma CompressedOnly(a: string, b: string)
    requires Only(a, HEX + ":") && Only(b, HEX + ":")
    ensures Only(a + "::" + b, HEX + ":") && '.' !in a + "::" + b
  {
    OnlyConcat(a, "::", HEX + ":");
    OnlyConcat(a + "::", b, HEX + ":");
    NoDots(a + "::" + b);
  }

  lemma CompressedSplits(a: string, b: string)
    requires Single(a)
    ensures var s := a + "::" + b;
      DoubleColon(s) == |a| && s[..|a|] == a && s[|a| + 2..] == b
  {
    DoubleColonFirst(a, b);
  }

  lemma CompressedRoundTrip(ws: seq<u16>, start: nat, length: nat)
    requires |ws| == 8 && start + length <= 8 && ws[start..start + length] == Zeros(length)
    ensures ParseV6(Join(ws[..start]) + "::" + Join(ws[start + length..])) == OfWords(ws)
    ensures Only(Join(ws[..start]) + "::" + Join(ws[start + length..]), HEX + ":")
  {
    hide Join, ParseJoin, DoubleColon, ParseDotted, OfWords, Single, Only;
    var left, right := ws[..start], ws[start + length..];
    JoinSingle(left);
    JoinSingle(right);
    JoinAlphabet(left);
    JoinAlphabet(right);
    CompressedOnly(Join(left), Join(right));
    CompressedSplits(Join(left), Join(right));
    JoinRoundTrip(left);
    JoinRoundTrip(right);
    assert left + Zeros(length) + right == ws;
  }

  lemma PlainRoundTrip(ws: seq<u16>)
    requires |ws| == 8
    ensures ParseV6(Join(ws)) == OfWords(ws) && Only(Join(ws), HEX + ":")
  {
    JoinSingle(ws);
    JoinAlphabet(ws);
    NoDots(Join(ws));
    DoubleColonNone(Join(ws));
    JoinRoundTrip(ws);
  }

  lemma ZeroWords(ip: IpAddr)
    requires Words(ip)[..6] == Zeros(6)
    ensures ip == seq(12, _ => 0) + ip[12..]
  {
    hide Be16;
    forall j | 0 <= j < 12
      ensures ip[j] == 0
    {
      var i := j / 2;
      assert Words(ip)[..6][i] == 0;
      assert Words(ip)[i] == Be16(ip[2 * i], ip[2 * i + 1]);
      HalfRoundTrip(ip[2 * i], ip[2 * i + 1]);
    }
  }

  lemma MixedRoundTrip(ip: IpAddr)
    requires Words(ip)[..6] == Zeros(6)
    ensures ParseV6("::" + Dotted(ip[12..])) == ip
  {
    hide Dotted, ParseDotted, Words, ParseJoin, OfEight, DoubleColon;
    var s := "::" + Dotted(ip[12..]);
    DottedOnly(ip[12..]);
    DottedRoundTrip(ip[12..]);
    assert s[2..] == Dotted(ip[12..]);
    ZeroWords(ip);
  }

  const V6CHARS := HEX + ":."

  lemma OnlyMore(s: string, few: string, many: string)
    requires Only(s, few) && Only(few, many)
    ensures Only(s, many)
  {
  }

  /** IPv6 text in either style reads back as the same address, and uses only hexadecimal digits,
      colons and dots. */
  lemma V6RoundTrip(ip: IpAddr, mixed: bool)
    ensures ParseV6(V6Text(ip, mixed)) == ip && Only(V6Text(ip, mixed), V6CHARS)
  {
    hide Join, Dotted, ParseV6, OfWords, ZeroRun, LongestRun, Words;
    var ws := Words(ip);
    var start := LongestRun(ws, 0);
    var length := ZeroRun(ws, start);
    RunIsZero(ws, start);
    WordsRoundTrip(ip);
    if mixed && start == 0 && length == 6 {
      assert ws[..6] == ws[0..0 + length];
      MixedRoundTrip(ip);
      DottedOnly(ip[12..]);
      OnlyMore(Dotted(ip[12..]), DECIMAL + ".", V6CHARS);
      OnlyConcat("::", Dotted(ip[12..]), V6CHARS);
    } else if length < 2 {
      PlainRoundTrip(ws);
      OnlyMore(Join(ws), HEX + ":", V6CHARS);
    } else {
      CompressedRoundTrip(ws, start, length);
      OnlyMore(Join(ws[..start]) + "::" + Join(ws[start + length..]), HEX + ":", V6CHARS);
    }
  }
}
