/** Text forms of addresses: decimal and hexadecimal digit strings, joining and splitting on a
    separator, dotted-decimal IPv4 and the eight-group IPv6 text of section 2.2 of RFC 4291.
    The parsers are the inverses the formatters are proved against. */
module AddressText {
  import opened Common

  predicate IsLowerHexDigit(c: char) {
    '0' <= c <= '9' || 'a' <= c <= 'f'
  }

  /** The digit for `d`: `0`-`9`, then lower-case `a`-`f`. */
  function Digit(d: nat): (c: char)
    requires d < 16
    ensures IsLowerHexDigit(c)
  {
    if d < 10 then ('0' as int + d) as char else ('a' as int + d - 10) as char
  }

  function DigitValue(c: char): (v: Option<nat>)
    ensures v.Some? ==> v.value < 16 && Digit(v.value) == c
    ensures v.Some? <==> IsLowerHexDigit(c)
  {
    if '0' <= c <= '9' then Some(c as int - '0' as int)
    else if 'a' <= c <= 'f' then Some(c as int - 'a' as int + 10)
    else None
  }

  lemma DigitValueOfDigit(d: nat)
    requires d < 16
    ensures DigitValue(Digit(d)) == Some(d)
  {
  }

  /** `n` written in `base` without leading zeros (`String(n)`, `n.toString(16)`). */
  function ToDigits(n: nat, base: nat): (s: string)
    requires 2 <= base <= 16
    ensures 1 <= |s|
    ensures forall i :: 0 <= i < |s| ==> IsLowerHexDigit(s[i])
    decreases n
  {
    if n < base then [Digit(n)]
    else
      DivMod(n, base);
      ToDigits(n / base, base) + [Digit(n % base)]
  }

  /** The value of a non-empty digit string in `base`; none if a character is not a digit of it. */
  function FromDigits(s: string, base: nat): Option<nat>
    requires 2 <= base <= 16
    decreases |s|
  {
    if |s| == 0 then None
    else
      var last := DigitValue(s[|s| - 1]);
      if last.None? || last.value >= base then None
      else if |s| == 1 then last
      else match FromDigits(s[..|s| - 1], base)
        case None => None
        case Some(high) => Some(high * base + last.value)
  }

  lemma FromDigitsAppend(high: string, d: nat, base: nat)
    requires 2 <= base <= 16 && d < base && |high| >= 1
    ensures FromDigits(high + [Digit(d)], base) ==
            match FromDigits(high, base)
            case None => None
            case Some(h) => Some(h * base + d)
  {
    var s := high + [Digit(d)];
    assert s[..|s| - 1] == high;
    DigitValueOfDigit(d);
  }

  lemma {:induction false} FromToDigits(n: nat, base: nat)
    requires 2 <= base <= 16
    ensures FromDigits(ToDigits(n, base), base) == Some(n)
    decreases n
  {
    if n >= base {
      var q, d := n / base, n % base;
      DivMod(n, base);
      assert ToDigits(n, base) == ToDigits(q, base) + [Digit(d)];
      FromToDigits(q, base);
      FromDigitsAppend(ToDigits(q, base), d, base);
    } else {
      DigitValueOfDigit(n);
    }
  }

  lemma DivMod(n: nat, b: nat)
    requires 2 <= b <= n
    ensures n / b < n && (n / b) * b + n % b == n
  {
  }

  lemma DivBound(n: nat, b: nat, p: nat)
    requires 0 < b && n < b * p
    ensures n / b < p
  {
  }

  function Pow(b: nat, k: nat): nat {
    if k == 0 then 1 else b * Pow(b, k - 1)
  }

  lemma {:induction false} ToDigitsLength(n: nat, base: nat, k: nat)
    requires 2 <= base <= 16 && 1 <= k && n < Pow(base, k)
    ensures |ToDigits(n, base)| <= k
    decreases k
  {
    if n >= base {
      var p := Pow(base, k - 1);
      DivBound(n, base, p);
      ToDigitsLength(n / base, base, k - 1);
    }
  }

  /** The first digit is `0` only for the number zero, whose text is `"0"`. */
  lemma {:induction false} ToDigitsLeading(n: nat, base: nat)
    requires 2 <= base <= 16
    ensures ToDigits(n, base)[0] == '0' <==> n == 0
    ensures n == 0 ==> ToDigits(n, base) == "0"
    decreases n
  {
    if n >= base {
      var q := n / base;
      DivMod(n, base);
      assert q >= 1;
      assert ToDigits(n, base) == ToDigits(q, base) + [Digit(n % base)];
      ToDigitsLeading(q, base);
    } else {
      assert ToDigits(n, base) == [Digit(n)];
      assert Digit(0) == '0';
      if Digit(n) == '0' {
        DigitInjective(n, 0);
      }
    }
  }

  /** `parts` joined with `sep` between neighbours (Swift `joined(separator:)`, Kotlin `joinToString`). */
  function Join(parts: seq<string>, sep: char): string
    decreases |parts|
  {
    if |parts| == 0 then ""
    else if |parts| == 1 then parts[0]
    else parts[0] + [sep] + Join(parts[1..], sep)
  }

  /** The pieces of `s` between occurrences of `sep`, empty pieces included. */
  function Split(s: string, sep: char): (parts: seq<string>)
    ensures |parts| >= 1
    decreases |s|
  {
    if |s| == 0 then [""]
    else
      var rest := Split(s[1..], sep);
      if s[0] == sep then [""] + rest else [[s[0]] + rest[0]] + rest[1..]
  }

  lemma {:induction false} SplitNoSeparator(p: string, sep: char)
    requires sep !in p
    ensures Split(p, sep) == [p]
    decreases |p|
  {
    if |p| > 0 {
      SplitNoSeparator(p[1..], sep);
      assert [p[0]] + p[1..] == p;
    }
  }

  lemma {:induction false} SplitAtSeparator(p: string, q: string, sep: char)
    requires sep !in p
    ensures Split(p + [sep] + q, sep) == [p] + Split(q, sep)
    decreases |p|
  {
    var s := p + [sep] + q;
    if |p| == 0 {
      assert s[1..] == q;
    } else {
      assert s[1..] == p[1..] + [sep] + q;
      SplitAtSeparator(p[1..], q, sep);
      assert [p[0]] + p[1..] == p;
    }
  }

  /** Splitting a join recovers the parts when no part contains the separator. */
  lemma {:induction false} SplitJoin(parts: seq<string>, sep: char)
    requires |parts| >= 1
    requires forall i :: 0 <= i < |parts| ==> sep !in parts[i]
    ensures Split(Join(parts, sep), sep) == parts
    decreases |parts|
  {
    if |parts| == 1 {
      SplitNoSeparator(parts[0], sep);
    } else {
      SplitJoin(parts[1..], sep);
      SplitAtSeparator(parts[0], Join(parts[1..], sep), sep);
      assert [parts[0]] + parts[1..] == parts;
    }
  }

  /** Swift `hasPrefix`. */
  predicate HasPrefix(s: string, p: string) {
    |p| <= |s| && s[..|p|] == p
  }

  /** The text before the first `c` (all of `s` when there is none). */
  function TakeUntil(s: string, c: char): string
    decreases |s|
  {
    if |s| == 0 || s[0] == c then "" else [s[0]] + TakeUntil(s[1..], c)
  }

  lemma {:induction false} TakeUntilAppend(p: string, q: string, c: char)
    requires c !in p
    requires q == [] || q[0] == c
    ensures TakeUntil(p + q, c) == p
    decreases |p|
  {
    if |p| == 0 {
      assert p + q == q;
    } else {
      assert (p + q)[1..] == p[1..] + q;
      TakeUntilAppend(p[1..], q, c);
      assert [p[0]] + p[1..] == p;
    }
  }

  predicate AllDigits(s: string) {
    forall i :: 0 <= i < |s| ==> IsLowerHexDigit(s[i])
  }

  lemma NoSeparatorInDigits(s: string, sep: char)
    requires AllDigits(s) && !IsLowerHexDigit(sep)
    ensures sep !in s
  {
  }

  // ---------------------------------------------------------------- IPv4

  /** One octet in decimal, as `String(UInt8)`. */
  function Decimal(b: Byte): string {
    ToDigits(b, 10)
  }

  function DecimalGroups(a: seq<Byte>): (gs: seq<string>)
    ensures |gs| == |a|
  {
    seq(|a|, i requires 0 <= i < |a| => Decimal(a[i]))
  }

  /** The octets in decimal joined by "." (`rawValue.map(String.init).joined(separator: ".")`). */
  function FormatIPv4(a: seq<Byte>): string {
    Join(DecimalGroups(a), '.')
  }

  function ParseOctets(parts: seq<string>): Option<seq<Byte>>
    decreases |parts|
  {
    if parts == [] then Some([])
    else if !(1 <= |parts[0]| <= 3) then None
    else match FromDigits(parts[0], 10)
      case None => None
      case Some(v) =>
        if v >= 256 then None
        else match ParseOctets(parts[1..])
          case None => None
          case Some(rest) => Some([v as Byte] + rest)
  }

  /** Reads dotted-decimal text of four octets back. */
  function ParseIPv4(s: string): Option<seq<Byte>> {
    var parts := Split(s, '.');
    if |parts| != 4 then None else ParseOctets(parts)
  }

  lemma {:induction false} ParseOctetsOfDecimals(a: seq<Byte>)
    ensures ParseOctets(DecimalGroups(a)) == Some(a)
    decreases |a|
  {
    if a != [] {
      var gs := DecimalGroups(a);
      assert gs[0] == Decimal(a[0]);
      FromToDigits(a[0], 10);
      assert Pow(10, 3) == 1000;
      ToDigitsLength(a[0], 10, 3);
      assert gs[1..] == DecimalGroups(a[1..]);
      ParseOctetsOfDecimals(a[1..]);
      assert [a[0]] + a[1..] == a;
    }
  }

  /** Dotted-decimal IPv4 text: four decimal groups of one to three digits, read back to the octets. */
  lemma IPv4RoundTrip(a: seq<Byte>)
    requires |a| == 4
    ensures Split(FormatIPv4(a), '.') == DecimalGroups(a)
    ensures forall i :: 0 <= i < 4 ==> 1 <= |DecimalGroups(a)[i]| <= 3
    ensures forall i :: 0 <= i < 4 ==> (DecimalGroups(a)[i][0] == '0' ==> DecimalGroups(a)[i] == "0")
    ensures ParseIPv4(FormatIPv4(a)) == Some(a)
  {
    var gs := DecimalGroups(a);
    forall i | 0 <= i < |gs| ensures '.' !in gs[i] && 1 <= |gs[i]| <= 3 && (gs[i][0] == '0' ==> gs[i] == "0") {
      NoSeparatorInDigits(gs[i], '.');
      assert Pow(10, 3) == 1000;
      ToDigitsLength(a[i], 10, 3);
      ToDigitsLeading(a[i], 10);
    }
    SplitJoin(gs, '.');
    ParseOctetsOfDecimals(a);
  }

  // ---------------------------------------------------------------- IPv6

  /** One octet as two lower-case hexadecimal digits, as `%02x`. */
  function Hex2(b: Byte): string {
    [Digit(b / 16), Digit(b % 16)]
  }

  /** iOS: group i is `%02x%02x` of octets 2i and 2i+1. */
  function PaddedGroups(a: seq<Byte>): (gs: seq<string>)
    requires |a| == 16
    ensures |gs| == 8
  {
    seq(8, i requires 0 <= i < 8 => Hex2(a[2 * i]) + Hex2(a[2 * i + 1]))
  }

  function FormatPaddedIPv6(a: seq<Byte>): string
    requires |a| == 16
  {
    Join(PaddedGroups(a), ':')
  }

  /** Android: group i is the 16-bit value of octets 2i and 2i+1 in hexadecimal, without padding. */
  function GroupValue(a: seq<Byte>, i: nat): (v: nat)
    requires 2 * i + 1 < |a|
    ensures v < 65536
  {
    a[2 * i] as int * 256 + a[2 * i + 1] as int
  }

  function CompactGroups(a: seq<Byte>): (gs: seq<string>)
    requires |a| == 16
    ensures |gs| == 8
  {
    seq(8, i requires 0 <= i < 8 => ToDigits(GroupValue(a, i), 16))
  }

  function FormatCompactIPv6(a: seq<Byte>): string
    requires |a| == 16
  {
    Join(CompactGroups(a), ':')
  }

  /** One group of one to four hexadecimal digits, read as two octets. */
  function ParseGroup(g: string): Option<(Byte, Byte)> {
    if !(1 <= |g| <= 4) then None
    else match FromDigits(g, 16)
      case None => None
      case Some(v) => if v < 65536 then Some(((v / 256) as Byte, (v % 256) as Byte)) else None
  }

  function ParseGroups(gs: seq<string>): Option<seq<Byte>>
    decreases |gs|
  {
    if gs == [] then Some([])
    else match ParseGroup(gs[0])
      case None => None
      case Some(pair) =>
        match ParseGroups(gs[1..])
        case None => None
        case Some(rest) => Some([pair.0, pair.1] + rest)
  }

  /** Reads the full eight-group form of section 2.2 of RFC 4291 (no `::`) back to sixteen octets. */
  function ParseIPv6(s: string): Option<seq<Byte>> {
    var gs := Split(s, ':');
    if |gs| != 8 then None else ParseGroups(gs)
  }

  lemma {:induction false} ParseGroupsOf(gs: seq<string>, a: seq<Byte>)
    requires |a| == 2 * |gs|
    requires forall i :: 0 <= i < |gs| ==> ParseGroup(gs[i]) == Some((a[2 * i], a[2 * i + 1]))
    ensures ParseGroups(gs) == Some(a)
    decreases |gs|
  {
    if gs != [] {
      var a' := a[2..];
      forall i | 0 <= i < |gs| - 1
        ensures ParseGroup(gs[1..][i]) == Some((a'[2 * i], a'[2 * i + 1]))
      {
        assert gs[1..][i] == gs[i + 1];
        assert a'[2 * i] == a[2 * (i + 1)] && a'[2 * i + 1] == a[2 * (i + 1) + 1];
      }
      ParseGroupsOf(gs[1..], a');
      assert [a[0], a[1]] + a' == a;
    }
  }

  lemma Hex2Value(b: Byte)
    ensures Hex2(b) == [Digit(b / 16), Digit(b % 16)]
    ensures DigitValue(Hex2(b)[0]) == Some(b / 16) && DigitValue(Hex2(b)[1]) == Some(b % 16)
  {
    DigitValueOfDigit(b / 16);
    DigitValueOfDigit(b % 16);
  }

  lemma ParsePaddedGroup(x: Byte, y: Byte)
    ensures ParseGroup(Hex2(x) + Hex2(y)) == Some((x, y))
  {
    var g := Hex2(x) + Hex2(y);
    Hex2Value(x);
    Hex2Value(y);
    var d0, d1, d2, d3 := x / 16, x % 16, y / 16, y % 16;
    assert g == [Digit(d0), Digit(d1), Digit(d2), Digit(d3)];
    assert g[..1] == [Digit(d0)];
    assert g[..2][..1] == g[..1];
    assert g[..3][..2] == g[..2];
    assert g[..4][..3] == g[..3];
    assert FromDigits(g[..1], 16) == Some(d0);
    assert FromDigits(g[..2], 16) == Some(d0 * 16 + d1);
    assert FromDigits(g[..3], 16) == Some((d0 * 16 + d1) * 16 + d2);
    assert g[..4] == g;
    assert FromDigits(g, 16) == Some(((d0 * 16 + d1) * 16 + d2) * 16 + d3);
    var v := ((d0 * 16 + d1) * 16 + d2) * 16 + d3;
    assert v == x * 256 + y;
  }

  lemma ParseCompactGroup(a: seq<Byte>, i: nat)
    requires |a| == 16 && i < 8
    ensures ParseGroup(ToDigits(GroupValue(a, i), 16)) == Some((a[2 * i], a[2 * i + 1]))
  {
    var v := GroupValue(a, i);
    FromToDigits(v, 16);
    assert Pow(16, 4) == 65536;
    ToDigitsLength(v, 16, 4);
  }

  /** iOS text: eight groups of exactly four lower-case hex digits, group i being octets 2i and
      2i+1 as `%02x%02x`, joined by ":"; it reads back to the sixteen octets. */
  lemma PaddedIPv6RoundTrip(a: seq<Byte>)
    requires |a| == 16
    ensures Split(FormatPaddedIPv6(a), ':') == PaddedGroups(a)
    ensures forall i :: 0 <= i < 8 ==> |PaddedGroups(a)[i]| == 4 && AllDigits(PaddedGroups(a)[i])
    ensures forall i :: 0 <= i < 8 ==> PaddedGroups(a)[i] == Hex2(a[2 * i]) + Hex2(a[2 * i + 1])
    ensures ParseIPv6(FormatPaddedIPv6(a)) == Some(a)
  {
    var gs := PaddedGroups(a);
    forall i | 0 <= i < 8 ensures ':' !in gs[i] && AllDigits(gs[i]) && ParseGroup(gs[i]) == Some((a[2 * i], a[2 * i + 1])) {
      ParsePaddedGroup(a[2 * i], a[2 * i + 1]);
    }
    SplitJoin(gs, ':');
    ParseGroupsOf(gs, a);
  }

  /** Android text: eight groups of one to four lower-case hex digits without leading zeros
      ("0" for a zero group), group i being the value of octets 2i and 2i+1; it reads back to
      the sixteen octets. */
  lemma CompactIPv6RoundTrip(a: seq<Byte>)
    requires |a| == 16
    ensures Split(FormatCompactIPv6(a), ':') == CompactGroups(a)
    ensures forall i :: 0 <= i < 8 ==>
      var g := CompactGroups(a)[i];
      1 <= |g| <= 4 && AllDigits(g) && (g[0] == '0' ==> g == "0") && FromDigits(g, 16) == Some(GroupValue(a, i))
    ensures ParseIPv6(FormatCompactIPv6(a)) == Some(a)
  {
    var gs := CompactGroups(a);
    forall i | 0 <= i < 8
      ensures ':' !in gs[i] && ParseGroup(gs[i]) == Some((a[2 * i], a[2 * i + 1]))
      ensures 1 <= |gs[i]| <= 4 && AllDigits(gs[i]) && (gs[i][0] == '0' ==> gs[i] == "0")
      ensures FromDigits(gs[i], 16) == Some(GroupValue(a, i))
    {
      ParseCompactGroup(a, i);
      ToDigitsLeading(GroupValue(a, i), 16);
      FromToDigits(GroupValue(a, i), 16);
      assert Pow(16, 4) == 65536;
      ToDigitsLength(GroupValue(a, i), 16, 4);
    }
    SplitJoin(gs, ':');
    ParseGroupsOf(gs, a);
  }

  lemma DigitInjective(d: nat, e: nat)
    requires d < 16 && e < 16 && Digit(d) == Digit(e)
    ensures d == e
  {
    DigitValueOfDigit(d);
    DigitValueOfDigit(e);
  }

  /** The iOS text starts with "fe80:" exactly when the first two octets are fe and 80, the
      link-local prefix of section 2.5.6 of RFC 4291. */
  lemma PaddedLinkLocal(a: seq<Byte>)
    requires |a| == 16
    ensures HasPrefix(FormatPaddedIPv6(a), "fe80:") <==> a[0] == 0xfe && a[1] == 0x80
  {
    var gs := PaddedGroups(a);
    var s := FormatPaddedIPv6(a);
    assert s == gs[0] + [':'] + Join(gs[1..], ':');
    assert gs[0] == [Digit(a[0] / 16), Digit(a[0] % 16), Digit(a[1] / 16), Digit(a[1] % 16)];
    assert s[..5] == gs[0] + [':'];
    assert "fe80:" == [Digit(15), Digit(14), Digit(8), Digit(0), ':'];
    if HasPrefix(s, "fe80:") {
      assert Digit(a[0] / 16) == s[0] == Digit(15);
      assert Digit(a[0] % 16) == s[1] == Digit(14);
      assert Digit(a[1] / 16) == s[2] == Digit(8);
      assert Digit(a[1] % 16) == s[3] == Digit(0);
      DigitInjective(a[0] / 16, 15);
      DigitInjective(a[0] % 16, 14);
      DigitInjective(a[1] / 16, 8);
      DigitInjective(a[1] % 16, 0);
    }
  }

  /** Cutting at the first "%" recovers the address text in front of a zone suffix. */
  lemma ZoneCut(a: seq<Byte>, zone: string)
    requires |a| == 16
    requires zone == [] || zone[0] == '%'
    ensures TakeUntil(FormatPaddedIPv6(a) + zone, '%') == FormatPaddedIPv6(a)
  {
    var gs := PaddedGroups(a);
    PaddedIPv6RoundTrip(a);
    JoinDigitsHasNo(gs, ':', '%');
    TakeUntilAppend(FormatPaddedIPv6(a), zone, '%');
  }

  lemma {:induction false} JoinDigitsHasNo(parts: seq<string>, sep: char, c: char)
    requires forall i :: 0 <= i < |parts| ==> AllDigits(parts[i])
    requires c != sep && !IsLowerHexDigit(c)
    ensures c !in Join(parts, sep)
    decreases |parts|
  {
    if |parts| > 1 {
      JoinDigitsHasNo(parts[1..], sep, c);
    }
  }
}
