/** Text forms of IP addresses: how they are printed (sections 4 and 5 of RFC 5952), what
    they denote (section 2.2 of RFC 4291), and the key under which the admin pages look up
    the queries of their visitor. */
module IpText {
  import opened Text
  import opened RateLimiter
  import opened Handler

  // ---------- numerals ----------

  function DigitChar(d: nat): char
    requires d < 16
  {
    "0123456789abcdef"[d]
  }

  predicate IsHexChar(c: char) {
    '0' <= c <= '9' || 'a' <= c <= 'f' || 'A' <= c <= 'F'
  }

  function HexCharValue(c: char): nat
    requires IsHexChar(c)
  {
    if '0' <= c <= '9' then c as int - '0' as int
    else if 'a' <= c <= 'f' then c as int - 'a' as int + 10
    else c as int - 'A' as int + 10
  }

  /** Decimal and hexadecimal numerals, without leading zeros. */
  function Decimal(n: nat): string {
    if n < 10 then [DigitChar(n)] else Decimal(n / 10) + [DigitChar(n % 10)]
  }

  function Hex(n: nat): string {
    if n < 16 then [DigitChar(n)] else Hex(n / 16) + [DigitChar(n % 16)]
  }

  ghost predicate AllHex(s: string) {
    forall i :: 0 <= i < |s| ==> IsHexChar(s[i])
  }

  ghost predicate HexGroup(s: string) {
    1 <= |s| <= 4 && AllHex(s)
  }

  /** The numbers written with these digits; hexadecimal digits may be of either case. */
  function HexValue(s: string): nat {
    if s == "" then 0
    else 16 * HexValue(s[..|s| - 1]) + if IsHexChar(s[|s| - 1]) then HexCharValue(s[|s| - 1]) else 0
  }

  function DecimalValue(s: string): nat {
    if s == "" then 0
    else 10 * DecimalValue(s[..|s| - 1]) + if IsHexChar(s[|s| - 1]) then HexCharValue(s[|s| - 1]) else 0
  }

  lemma {:induction false} DigitRead(d: nat)
    requires d < 16
    ensures IsHexChar(DigitChar(d)) && HexCharValue(DigitChar(d)) == d
    ensures DigitChar(d) != '.' && DigitChar(d) != ':'
  {
  }

  lemma {:induction false} DecimalRead(n: nat)
    ensures DecimalValue(Decimal(n)) == n
    ensures '.' !in Decimal(n) && ':' !in Decimal(n) && Decimal(n) != ""
  {
    if n < 10 {
      DigitRead(n);
      assert [DigitChar(n)][..0] == "";
    } else {
      DecimalRead(n / 10);
      DigitRead(n % 10);
      var s := Decimal(n);
      assert s[..|s| - 1] == Decimal(n / 10);
    }
  }

  lemma {:induction false} HexRead(n: nat)
    ensures HexValue(Hex(n)) == n && AllHex(Hex(n))
    ensures '.' !in Hex(n) && ':' !in Hex(n) && Hex(n) != ""
  {
    if n < 16 {
      DigitRead(n);
      assert [DigitChar(n)][..0] == "";
    } else {
      HexRead(n / 16);
      DigitRead(n % 16);
      var s := Hex(n);
      assert s[..|s| - 1] == Hex(n / 16);
    }
  }

  predicate DecimalDigit(c: char) {
    '0' <= c <= '9'
  }

  predicate LowerHexDigit(c: char) {
    '0' <= c <= '9' || 'a' <= c <= 'f'
  }

  lemma {:induction false} DigitIs(d: nat)
    requires d < 16
    ensures LowerHexDigit(DigitChar(d)) && (d < 10 ==> DecimalDigit(DigitChar(d))) && (d > 0 ==> DigitChar(d) != '0')
  {
  }

  /** Numerals have no leading zeros, and hexadecimal ones no upper-case letters. */
  lemma {:induction false} DecimalIsShort(n: nat)
    ensures Decimal(n) != "" && (n > 0 ==> Decimal(n)[0] != '0')
    ensures forall i :: 0 <= i < |Decimal(n)| ==> DecimalDigit(Decimal(n)[i])
  {
    if n < 10 {
      DigitIs(n);
    } else {
      DecimalIsShort(n / 10);
      DigitIs(n % 10);
      assert Decimal(n) == Decimal(n / 10) + [DigitChar(n % 10)];
    }
  }

  lemma {:induction false} HexIsShort(n: nat)
    ensures Hex(n) != "" && (n > 0 ==> Hex(n)[0] != '0')
    ensures forall i :: 0 <= i < |Hex(n)| ==> LowerHexDigit(Hex(n)[i])
  {
    if n < 16 {
      DigitIs(n);
    } else {
      HexIsShort(n / 16);
      DigitIs(n % 16);
      assert Hex(n) == Hex(n / 16) + [DigitChar(n % 16)];
    }
  }

  lemma {:induction false} HexIsGroup(n: nat)
    requires n < 0x1_0000
    ensures HexGroup(Hex(n)) && HexValue(Hex(n)) == n
    ensures '.' !in Hex(n) && ':' !in Hex(n)
  {
    HexRead(n);
    HexLength(n, 4);
  }

  function Pow16(k: nat): nat {
    if k == 0 then 1 else 16 * Pow16(k - 1)
  }

  lemma {:induction false} HexLength(n: nat, k: nat)
    requires 1 <= k && n < Pow16(k)
    ensures |Hex(n)| <= k
  {
    if n < 16 {
    } else {
      HexLength(n / 16, k - 1);
    }
  }

  // ---------- numbers as groups ----------

  /** The four octets of 32 bits, most significant first. */
  function Octets(bits: nat): seq<nat> {
    [bits / 256 / 256 / 256, bits / 256 / 256 % 256, bits / 256 % 256, bits % 256]
  }

  /** The `n` lowest groups of 16 bits, most significant first. */
  function Segments(bits: nat, n: nat): (g: seq<nat>)
    ensures |g| == n && forall i :: 0 <= i < n ==> g[i] < 0x1_0000
  {
    if n == 0 then [] else Segments(bits / 0x1_0000, n - 1) + [bits % 0x1_0000]
  }

  function Value(groups: seq<nat>): nat {
    if groups == [] then 0 else Value(groups[..|groups| - 1]) * 0x1_0000 + groups[|groups| - 1]
  }

  function Power(n: nat): nat {
    if n == 0 then 1 else 0x1_0000 * Power(n - 1)
  }

  lemma {:induction false} SegmentsValue(bits: nat, n: nat)
    requires bits < Power(n)
    ensures Value(Segments(bits, n)) == bits
  {
    if n == 0 {
    } else {
      SegmentsValue(bits / 0x1_0000, n - 1);
      var g := Segments(bits, n);
      assert g[..|g| - 1] == Segments(bits / 0x1_0000, n - 1);
    }
  }

  lemma {:induction false} OctetsInjective(a: nat, b: nat)
    requires Octets(a) == Octets(b)
    ensures a == b
  {
    var x, y := Octets(a), Octets(b);
    assert x[0] == y[0] && x[1] == y[1] && x[2] == y[2] && x[3] == y[3];
    assert a / 256 / 256 == b / 256 / 256;
    assert a / 256 == b / 256;
  }

  // ---------- printing ----------

  function Decimals(values: seq<nat>): seq<string> {
    seq(|values|, i requires 0 <= i < |values| => Decimal(values[i]))
  }

  function Hexes(values: seq<nat>): seq<string> {
    seq(|values|, i requires 0 <= i < |values| => Hex(values[i]))
  }

  /** Four decimal octets. */
  function V4Text(bits: nat): string {
    Join(Decimals(Octets(bits)), '.')
  }

  /** Number of zero groups from position `i` on. */
  function ZeroRun(groups: seq<nat>, i: nat): (n: nat)
    requires i <= |groups|
    ensures i + n <= |groups|
    ensures forall j :: i <= j < i + n ==> groups[j] == 0
    decreases |groups| - i
  {
    if i < |groups| && groups[i] == 0 then 1 + ZeroRun(groups, i + 1) else 0
  }

  /** The first of the longest runs of zeros that start before `n`: where, and how long. */
  function LongestRun(groups: seq<nat>, n: nat): (r: (nat, nat))
    requires n <= |groups|
    ensures r.0 <= |groups| && r.1 == ZeroRun(groups, r.0)
  {
    if n == 0 then (|groups|, 0)
    else
      var before := LongestRun(groups, n - 1);
      if ZeroRun(groups, n - 1) > before.1 then (n - 1, ZeroRun(groups, n - 1)) else before
  }

  /** No run of zeros is longer, and none before it is as long. */
  lemma {:induction false} LongestRunIs(groups: seq<nat>, n: nat, j: nat)
    requires j < n <= |groups|
    ensures var (start, length) := LongestRun(groups, n);
            ZeroRun(groups, j) <= length && (j < start < |groups| ==> ZeroRun(groups, j) < length)
  {
    var (start, length) := LongestRun(groups, n - 1);
    if j == n - 1 {
      RunStartsBefore(groups, n - 1);
    } else {
      LongestRunIs(groups, n - 1, j);
    }
  }

  lemma {:induction false} RunStartsBefore(groups: seq<nat>, n: nat)
    requires n <= |groups|
    ensures var (start, length) := LongestRun(groups, n); start < n || (start == |groups| && length == 0)
  {
    if n == 0 {
    } else {
      RunStartsBefore(groups, n - 1);
    }
  }

  function HexText(groups: seq<nat>): string {
    Join(Hexes(groups), ':')
  }

  /** The first longest run of two or more zero groups becomes a double colon. */
  function GroupsText(groups: seq<nat>): string {
    var (start, length) := LongestRun(groups, |groups|);
    if length > 1 then HexText(groups[..start]) + "::" + HexText(groups[start + length..]) else HexText(groups)
  }

  /** `to_string`: IPv4-mapped addresses keep the dotted form of the IPv4 address. */
  function Print(ip: IpAddr): string {
    match ip
    case V4(bits) => V4Text(bits)
    case V6(bits) =>
      if IsMapped(bits) then "::ffff:" + V4Text(bits % 0x1_0000_0000)
      else GroupsText(Segments(bits, 8))
  }

  // ---------- what a text denotes ----------

  /** Hexadecimal groups and their values. */
  ghost predicate GroupsMean(parts: seq<string>, values: seq<nat>) {
    && |parts| == |values|
    && forall i :: 0 <= i < |parts| ==> HexGroup(parts[i]) && HexValue(parts[i]) == values[i]
  }

  /** The same, where the last part may be a dotted quad that stands for two groups. */
  ghost predicate PartsMean(parts: seq<string>, values: seq<nat>) {
    || GroupsMean(parts, values)
    || (parts != [] && exists x: nat :: x < 0x1_0000_0000 && QuadAtEnd(parts, values, x))
  }

  ghost predicate QuadAtEnd(parts: seq<string>, values: seq<nat>, x: nat)
    requires parts != []
  {
    && parts[|parts| - 1] == V4Text(x)
    && |values| == |parts| + 1
    && GroupsMean(parts[..|parts| - 1], values[..|values| - 2])
    && values[|values| - 2..] == [x / 0x1_0000, x % 0x1_0000]
  }

  ghost predicate DenotesFull(text: string, bits: nat, parts: seq<string>, values: seq<nat>) {
    PartsMean(parts, values) && |values| == 8 && text == Join(parts, ':') && bits == Value(values)
  }

  ghost predicate DenotesShort(text: string, bits: nat, head: seq<string>, tail: seq<string>, before: seq<nat>, after: seq<nat>) {
    && GroupsMean(head, before) && PartsMean(tail, after)
    && |before| + |after| <= 7
    && text == Join(head, ':') + "::" + Join(tail, ':')
    && bits == Value(Filled(before, after))
  }

  function Zeros(n: nat): seq<nat> {
    seq(n, _ => 0)
  }

  /** The groups around a double colon, with zeros between them up to eight. */
  function Filled(before: seq<nat>, after: seq<nat>): seq<nat> {
    before + Zeros(if |before| + |after| <= 8 then 8 - |before| - |after| else 0) + after
  }

  /** The address that a text stands for. */
  ghost predicate Denotes(text: string, ip: IpAddr) {
    match ip
    case V4(bits) => bits < 0x1_0000_0000 && text == V4Text(bits)
    case V6(bits) =>
      || (exists parts, values :: DenotesFull(text, bits, parts, values))
      || (exists head, tail, before, after :: DenotesShort(text, bits, head, tail, before, after))
  }

  /** Parsing gives the address that the text stands for, if there is one. */
  ghost function ParseIp(text: string): Option<IpAddr> {
    if ip :| Denotes(text, ip) then Some(ip) else None
  }
}
