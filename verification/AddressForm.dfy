/** The canonical form of addresses and numbers in text (section 4 of RFC 5952): no leading zeros,
    and "::" for the first longest run of two or more zero groups and for nothing else. */
module AddressForm {
  import opened Numbers
  import opened Events
  import opened AddressText

  // ---------------------------------------------------------------- no leading zeros

  /** A number starts with the digit zero only when it is zero, and then that is all of it. */
  lemma {:induction false} DigitsCanonical(n: nat, base: nat)
    requires base == 10 || base == 16
    ensures Digits(n, base) != "" && (Digits(n, base)[0] == '0' <==> n == 0)
    ensures n == 0 ==> Digits(n, base) == "0"
  {
    if n >= base {
      DigitsCanonical(n / base, base);
    }
  }

  /** A zero that starts a part of the text and does not end it. */
  predicate LeadingZero(s: string, i: nat, separator: char) {
    i < |s| - 1 && s[i] == '0' && (i == 0 || s[i - 1] == separator) && s[i + 1] != separator
  }

  /** Some part of the text, between separators, has a leading zero. */
  predicate Padded(s: string, separator: char) {
    exists i | 0 <= i < |s| :: LeadingZero(s, i, separator)
  }

  lemma NumberNotPadded(n: nat, base: nat, separator: char)
    requires base == 10 || base == 16
    requires separator == ':' || separator == '.'
    ensures !Padded(Digits(n, base), separator)
  {
    DigitsCanonical(n, base);
    DigitsOnly(n, base);
    hide Digits, Only;
    NoSeparator(Digits(n, base), base, separator);
  }

  lemma NoSeparator(s: string, base: nat, separator: char)
    requires base == 10 || base == 16
    requires Only(s, DIGITS[..base]) && (separator == ':' || separator == '.')
    ensures separator !in s
  {
    assert separator !in DIGITS;
  }

  lemma JoinedNotPadded(a: string, b: string, separator: char)
    requires separator != '0' && !Padded(a, separator) && !Padded(b, separator)
    ensures !Padded(a + [separator] + b, separator)
  {
    var s := a + [separator] + b;
    forall i | 0 <= i < |s|
      ensures !LeadingZero(s, i, separator)
    {
      if i < |a| {
        assert !LeadingZero(a, i, separator);
        assert s[i] == a[i] && (i > 0 ==> s[i - 1] == a[i - 1]) && (i + 1 < |a| ==> s[i + 1] == a[i + 1]);
      } else if i > |a| {
        var j := i - |a| - 1;
        assert !LeadingZero(b, j, separator);
        assert s[i] == b[j] && (j > 0 ==> s[i - 1] == b[j - 1]) && (j + 1 < |b| ==> s[i + 1] == b[j + 1]);
      }
    }
  }

  lemma {:induction false} JoinNotPadded(ws: seq<u16>)
    ensures !Padded(Join(ws), ':')
  {
    if ws != [] {
      NumberNotPadded(ws[0], 16, ':');
      if |ws| > 1 {
        hide Digits, Padded;
        JoinNotPadded(ws[1..]);
        JoinedNotPadded(Digits(ws[0], 16), Join(ws[1..]), ':');
        assert Join(ws) == Digits(ws[0], 16) + [':'] + Join(ws[1..]);
      }
    }
  }

  /** No part of a dotted address has a leading zero. */
  lemma DottedNotPadded(a: seq<u8>)
    requires |a| == 4
    ensures !Padded(Dotted(a), '.')
  {
    NumberNotPadded(a[0], 10, '.');
    NumberNotPadded(a[1], 10, '.');
    NumberNotPadded(a[2], 10, '.');
    NumberNotPadded(a[3], 10, '.');
    hide Digits, Padded;
    var p, q, r, s := Digits(a[0], 10), Digits(a[1], 10), Digits(a[2], 10), Digits(a[3], 10);
    JoinedNotPadded(r, s, '.');
    JoinedNotPadded(q, r + ['.'] + s, '.');
    JoinedNotPadded(p, q + ['.'] + (r + ['.'] + s), '.');
    assert Dotted(a) == p + ['.'] + (q + ['.'] + (r + ['.'] + s));
  }

  lemma CompressedNotPadded(left: seq<u16>, right: seq<u16>)
    ensures !Padded(Join(left) + "::" + Join(right), ':')
  {
    JoinNotPadded(left);
    JoinNotPadded(right);
    assert !Padded("", ':');
    hide Padded;
    JoinedNotPadded("", Join(right), ':');
    JoinedNotPadded(Join(left), "" + [':'] + Join(right), ':');
    assert Join(left) + "::" + Join(right) == Join(left) + [':'] + ("" + [':'] + Join(right));
  }

  // ---------------------------------------------------------------- the compressed run

  /** The n groups from j on are zero. */
  predicate IsZeroRun(ws: seq<u16>, j: nat, n: nat) {
    j + n <= |ws| && forall i | j <= i < j + n :: ws[i] == 0
  }

  /** No run of zero groups is longer, and none before it is as long. */
  ghost predicate FirstLongest(ws: seq<u16>, start: nat, length: nat) {
    && IsZeroRun(ws, start, length)
    && forall j: nat, n: nat | IsZeroRun(ws, j, n) :: n <= length && (j < start && n > 0 ==> n < length)
  }

  lemma {:induction false} RunIsMaximal(ws: seq<u16>, j: nat, n: nat)
    requires IsZeroRun(ws, j, n)
    ensures n <= ZeroRun(ws, j)
    decreases |ws| - j
  {
    if n > 0 {
      assert ws[j] == 0;
      RunIsMaximal(ws, j + 1, n - 1);
    }
  }

  lemma LongestIsFirstLongest(ws: seq<u16>)
    requires ws != []
    ensures var start := LongestRun(ws, 0); FirstLongest(ws, start, ZeroRun(ws, start))
  {
    var start := LongestRun(ws, 0);
    var length := ZeroRun(ws, start);
    hide ZeroRun, LongestRun;
    RunIsZero(ws, start);
    forall i | start <= i < start + length
      ensures ws[i] == 0
    {
      assert ws[i] == ws[start..start + length][i - start] == Zeros(length)[i - start];
    }
    forall j: nat, n: nat | IsZeroRun(ws, j, n)
      ensures n <= length && (j < start && n > 0 ==> n < length)
    {
      RunIsMaximal(ws, j, n);
    }
  }

  predicate HasDoubleColon(s: string) {
    exists i | 0 <= i < |s| - 1 :: s[i] == ':' && s[i + 1] == ':'
  }

  /** IPv6 text without an embedded IPv4 address. The "::" is there exactly when two zero groups
      stand side by side, and then it stands for all of the first longest run of zero groups and
      nothing else is left out; no group has a leading zero. */
  lemma V6Canonical(ip: IpAddr)
    ensures var ws, s := Words(ip), V6Text(ip, false);
      && (HasDoubleColon(s) <==> exists i | 0 <= i < 7 :: ws[i] == 0 && ws[i + 1] == 0)
      && (!HasDoubleColon(s) ==> ParseJoin(s) == ws)
      && (HasDoubleColon(s) ==>
            var i := DoubleColon(s);
            && i + 2 <= |s|
            && exists start: nat, length: nat | FirstLongest(ws, start, length) ::
                 ParseJoin(s[..i]) == ws[..start] && ParseJoin(s[i + 2..]) == ws[start + length..])
      && !Padded(s, ':')
  {
    var ws, s := Words(ip), V6Text(ip, false);
    var start := LongestRun(ws, 0);
    var length := ZeroRun(ws, start);
    LongestIsFirstLongest(ws);
    AdjacentIff(ws, start, length);
    hide ZeroRun, LongestRun, Padded, FirstLongest, IsZeroRun, Words;
    if length < 2 {
      JoinSingle(ws);
      JoinRoundTrip(ws);
      JoinNotPadded(ws);
    } else {
      RunIsZero(ws, start);
      var left, right := ws[..start], ws[start + length..];
      JoinSingle(left);
      CompressedSplits(Join(left), Join(right));
      CompressedHas(Join(left), Join(right));
      JoinRoundTrip(left);
      JoinRoundTrip(right);
      CompressedNotPadded(left, right);
    }
  }

  lemma CompressedHas(a: string, b: string)
    ensures HasDoubleColon(a + "::" + b)
  {
    var s := a + "::" + b;
    assert s[|a|] == ':' && s[|a| + 1] == ':';
  }

  lemma AdjacentIff(ws: seq<u16>, start: nat, length: nat)
    requires |ws| == 8 && FirstLongest(ws, start, length)
    ensures length >= 2 <==> exists i | 0 <= i < 7 :: ws[i] == 0 && ws[i + 1] == 0
  {
    if i :| 0 <= i < 7 && ws[i] == 0 && ws[i + 1] == 0 {
      assert IsZeroRun(ws, i, 2);
    }
    if length >= 2 {
      assert ws[start] == 0 && ws[start + 1] == 0;
    }
  }

  /** Where a platform embeds IPv4 addresses, it does so exactly for those behind twelve zero bytes
      whose first two bytes are not both zero; all other text is the same. */
  lemma MixedIff(ip: IpAddr)
    ensures var ws := Words(ip);
      var embeds := (forall i | 0 <= i < 6 :: ws[i] == 0) && ws[6] != 0;
      V6Text(ip, true) == if embeds then "::" + Dotted(ip[12..]) else V6Text(ip, false)
  {
    var ws := Words(ip);
    var start := LongestRun(ws, 0);
    LongestIsFirstLongest(ws);
    if start == 0 && ZeroRun(ws, start) == 6 {
      assert IsZeroRun(ws, 0, 6);
      if ws[6] == 0 {
        assert IsZeroRun(ws, 0, 7);
      }
    } else if (forall i | 0 <= i < 6 :: ws[i] == 0) && ws[6] != 0 {
      SixZeros(ws, start, ZeroRun(ws, start));
    }
  }

  lemma SixZeros(ws: seq<u16>, start: nat, length: nat)
    requires |ws| == 8 && FirstLongest(ws, start, length)
    requires (forall i | 0 <= i < 6 :: ws[i] == 0) && ws[6] != 0
    ensures start == 0 && length == 6
  {
    assert IsZeroRun(ws, 0, 6);
  }
}
