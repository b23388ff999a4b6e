/** IP addresses as numbers and the rate-limiting buckets they fall into. */
module RateLimiter {

  const IPV4_WIDTH: nat := 32
  const IPV6_WIDTH: nat := 128

  function Pow2(n: nat): (r: nat)
    ensures r > 0
  {
    if n == 0 then 1 else 2 * Pow2(n - 1)
  }

  /** An address of 32 or 128 bits. */
  datatype IpAddr = V4(bits: nat) | V6(bits: nat)

  /** The 128 bits are those of an IPv4-mapped address. */
  predicate IsMapped(bits: nat) {
    bits / 0x1_0000_0000 == 0xFFFF
  }

  function WidthOf(ip: IpAddr): nat {
    if ip.V4? then IPV4_WIDTH else IPV6_WIDTH
  }

  ghost predicate IsAddress(ip: IpAddr) {
    ip.bits < Pow2(WidthOf(ip))
  }

  /** Bitwise conjunction of two numbers, bit by bit. */
  function BitAnd(a: nat, b: nat): nat {
    if a == 0 || b == 0 then 0 else 2 * BitAnd(a / 2, b / 2) + (if a % 2 == 1 && b % 2 == 1 then 1 else 0)
  }

  /** Shifting left within `width` bits: bits pushed out at the top are lost. */
  function ShiftLeft(width: nat, x: nat, amount: nat): nat {
    if amount == 0 then x else 2 * ShiftLeft(width, x, amount - 1) % Pow2(width)
  }

  /** `MAX << amount` on unsigned integers of `width` bits. Without overflow checks the shift
      uses the amount modulo the width; with them, an amount equal to the width stops the
      program instead. */
  function MaxShiftedLeft(width: nat, amount: nat): nat
    requires width > 0
  {
    ShiftLeft(width, Pow2(width) - 1, amount % width)
  }

  function MaskBits(width: nat, bits: nat, prefix: nat): nat
    requires width > 0 && prefix <= width
  {
    BitAnd(bits, MaxShiftedLeft(width, width - prefix))
  }

  function MaskIp(ip: IpAddr, ipv4Prefix: nat, ipv6Prefix: nat): IpAddr {
    match ip
    case V4(bits) => if ipv4Prefix >= 32 then ip else V4(MaskBits(IPV4_WIDTH, bits, ipv4Prefix))
    case V6(bits) => if ipv6Prefix >= 128 then ip else V6(MaskBits(IPV6_WIDTH, bits, ipv6Prefix))
  }

  function PrefixOf(ip: IpAddr, ipv4Prefix: nat, ipv6Prefix: nat): nat {
    if ip.V4? then ipv4Prefix else ipv6Prefix
  }

  // ---------- the mask rounds down ----------

  /** The bits above the lowest `k`, and those `k` bits. */
  function Top(x: nat, k: nat): nat {
    if k == 0 then x else Top(x / 2, k - 1)
  }

  function Low(x: nat, k: nat): nat {
    if k == 0 then 0 else 2 * Low(x / 2, k - 1) + x % 2
  }

  lemma {:induction false} Double(t: nat, p: nat)
    ensures t * (2 * p) == 2 * (t * p)
  {
  }

  /** Every number is its top bits times `2^k` and its low bits, in one way only. */
  lemma {:induction false} TopAndLow(x: nat, k: nat)
    ensures x == Top(x, k) * Pow2(k) + Low(x, k) && Low(x, k) < Pow2(k)
  {
    if k == 0 {
    } else {
      TopAndLow(x / 2, k - 1);
      Double(Top(x / 2, k - 1), Pow2(k - 1));
    }
  }

  lemma {:induction false} TopIsUnique(t: nat, l: nat, k: nat)
    requires l < Pow2(k)
    ensures Top(t * Pow2(k) + l, k) == t
  {
    if k > 0 {
      Double(t, Pow2(k - 1));
      TopIsUnique(t, l / 2, k - 1);
      assert (t * Pow2(k) + l) / 2 == t * Pow2(k - 1) + l / 2;
    } else {
      assert t * Pow2(0) == t;
    }
  }

  /** The largest multiple of `2^k` that is not above `x`. */
  function RoundDown(x: nat, k: nat): nat {
    Top(x, k) * Pow2(k)
  }

  lemma {:induction false} Pow2Grows(k: nat, w: nat)
    requires k <= w
    ensures Pow2(k) <= Pow2(w)
    ensures k < w ==> 2 * Pow2(k) <= Pow2(w)
  {
    if k == w {
    } else {
      Pow2Grows(k, w - 1);
    }
  }

  lemma {:induction false} AndOnes(x: nat, w: nat)
    requires x < Pow2(w)
    ensures BitAnd(x, Pow2(w) - 1) == x
  {
    if w == 0 {
    } else {
      AndOnes(x / 2, w - 1);
      var mask := Pow2(w) - 1;
      assert mask / 2 == Pow2(w - 1) - 1 && mask % 2 == 1;
    }
  }

  lemma {:induction false} AndEven(x: nat, half: nat)
    ensures BitAnd(x, 2 * half) == 2 * BitAnd(x / 2, half)
  {
    assert 2 * half / 2 == half && 2 * half % 2 == 0;
  }

  /** Conjunction with a number whose low `k` bits are zeros and whose other bits are ones. */
  lemma {:induction false} AndMask(x: nat, w: nat, k: nat)
    requires k <= w && x < Pow2(w) && Pow2(k) <= Pow2(w)
    ensures BitAnd(x, Pow2(w) - Pow2(k)) == RoundDown(x, k)
  {
    if k == 0 {
      AndOnes(x, w);
      assert Top(x, 0) * Pow2(0) == x;
    } else {
      Pow2Grows(k - 1, w - 1);
      AndMask(x / 2, w - 1, k - 1);
      AndEven(x, Pow2(w - 1) - Pow2(k - 1));
      Double(Top(x / 2, k - 1), Pow2(k - 1));
    }
  }

  lemma {:induction false} ShiftedOnes(w: nat, a: nat)
    requires a < w
    ensures Pow2(a) <= Pow2(w) && ShiftLeft(w, Pow2(w) - 1, a) == Pow2(w) - Pow2(a)
  {
    Pow2Grows(a, w);
    if a == 0 {
    } else {
      ShiftedOnes(w, a - 1);
      Pow2Grows(a - 1, w);
      WrapOnce(2 * (Pow2(w) - Pow2(a - 1)), Pow2(w));
    }
  }

  lemma {:induction false} WrapOnce(x: nat, m: nat)
    requires m <= x < 2 * m
    ensures x % m == x - m
  {
  }

  lemma {:induction false} MaskBitsRounds(width: nat, bits: nat, prefix: nat)
    requires 1 <= prefix <= width && bits < Pow2(width)
    ensures MaskBits(width, bits, prefix) == RoundDown(bits, width - prefix)
  {
    var amount := width - prefix;
    assert amount % width == amount;
    ShiftedOnes(width, amount);
    AndMask(bits, width, amount);
  }

  /** The number of low bits that a prefix leaves free. */
  function FreeBits(ip: IpAddr, ipv4Prefix: nat, ipv6Prefix: nat): nat {
    var p := PrefixOf(ip, ipv4Prefix, ipv6Prefix);
    if p >= WidthOf(ip) then 0 else WidthOf(ip) - p
  }

  /** From prefix 1 up, masking rounds the address down to a multiple of `2^(width - p)`. */
  lemma {:induction false} MaskRoundsDown(ip: IpAddr, ipv4Prefix: nat, ipv6Prefix: nat)
    requires IsAddress(ip) && PrefixOf(ip, ipv4Prefix, ipv6Prefix) >= 1
    ensures MaskIp(ip, ipv4Prefix, ipv6Prefix) == ip.(bits := RoundDown(ip.bits, FreeBits(ip, ipv4Prefix, ipv6Prefix)))
  {
    var p, w := PrefixOf(ip, ipv4Prefix, ipv6Prefix), WidthOf(ip);
    assert RoundDown(ip.bits, 0) == ip.bits * Pow2(0) == ip.bits;
    if p < w {
      MaskBitsRounds(w, ip.bits, p);
    }
  }

  lemma {:induction false} TopIsQuotient(x: nat, k: nat)
    ensures Top(x, k) == x / Pow2(k)
  {
    TopAndLow(x, k);
    QuotientIs(x, Top(x, k), Low(x, k), Pow2(k));
  }

  lemma {:induction false} QuotientIs(x: nat, t: nat, l: nat, p: nat)
    requires x == t * p + l && l < p
    ensures x / p == t
  {
    if x / p < t {
      LessProduct(x / p, t, p);
    } else if t < x / p {
      LessProduct(t, x / p, p);
    }
  }

  /** Rounding down in plain numbers. */
  lemma {:induction false} RoundDownIs(x: nat, k: nat)
    ensures RoundDown(x, k) == x / Pow2(k) * Pow2(k)
  {
    TopIsQuotient(x, k);
  }

  /** Each family has its own width and prefix. */
  lemma {:induction false} FreeBitsAre(x: nat, ipv4Prefix: nat, ipv6Prefix: nat)
    ensures FreeBits(V4(x), ipv4Prefix, ipv6Prefix) == if ipv4Prefix < 32 then 32 - ipv4Prefix else 0
    ensures FreeBits(V6(x), ipv4Prefix, ipv6Prefix) == if ipv6Prefix < 128 then 128 - ipv6Prefix else 0
    ensures PrefixOf(V4(x), ipv4Prefix, ipv6Prefix) == ipv4Prefix && PrefixOf(V6(x), ipv4Prefix, ipv6Prefix) == ipv6Prefix
  {
  }

  // ---------- buckets ----------

  /** Two addresses are counted together. */
  predicate Shares(a: IpAddr, b: IpAddr, ipv4Prefix: nat, ipv6Prefix: nat) {
    MaskIp(a, ipv4Prefix, ipv6Prefix) == MaskIp(b, ipv4Prefix, ipv6Prefix)
  }

  lemma {:induction false} SameProduct(a: nat, b: nat, p: nat)
    requires p > 0 && a * p == b * p
    ensures a == b
  {
    if a < b {
      LessProduct(a, b, p);
    } else if b < a {
      LessProduct(b, a, p);
    }
  }

  lemma {:induction false} LessProduct(a: nat, b: nat, p: nat)
    requires p > 0 && a < b
    ensures a * p + p <= b * p
  {
    if p == 1 {
      assert a * 1 + 1 <= b * 1;
    } else {
      LessProduct(a, b, p - 1);
      assert a * p == a * (p - 1) + a && b * p == b * (p - 1) + b;
    }
  }

  /** Two addresses fall into one bucket exactly when they are of one family and their top
      `p` bits agree. */
  lemma {:induction false} SameBucketIff(a: IpAddr, b: IpAddr, ipv4Prefix: nat, ipv6Prefix: nat)
    requires IsAddress(a) && IsAddress(b)
    requires PrefixOf(a, ipv4Prefix, ipv6Prefix) >= 1 && PrefixOf(b, ipv4Prefix, ipv6Prefix) >= 1
    ensures Shares(a, b, ipv4Prefix, ipv6Prefix)
       <==> a.V4? == b.V4? && var k := FreeBits(a, ipv4Prefix, ipv6Prefix); Top(a.bits, k) == Top(b.bits, k)
  {
    MaskRoundsDown(a, ipv4Prefix, ipv6Prefix);
    MaskRoundsDown(b, ipv4Prefix, ipv6Prefix);
    if a.V4? == b.V4? {
      SameRounded(a.bits, b.bits, FreeBits(a, ipv4Prefix, ipv6Prefix));
    }
  }

  lemma {:induction false} SameRounded(x: nat, y: nat, k: nat)
    ensures RoundDown(x, k) == RoundDown(y, k) <==> Top(x, k) == Top(y, k)
  {
    if RoundDown(x, k) == RoundDown(y, k) {
      SameProduct(Top(x, k), Top(y, k), Pow2(k));
    }
  }

  /** With prefix 0 the shift amount equals the width, and without overflow checks nothing is
      masked: every address is a bucket of its own although no bits are asked to agree. */
  lemma {:induction false} PrefixZeroMasksNothing(ip: IpAddr, p4: nat, p6: nat)
    requires IsAddress(ip) && PrefixOf(ip, p4, p6) == 0
    ensures MaskIp(ip, p4, p6) == ip
  {
    ZeroPrefixBits(WidthOf(ip), ip.bits);
  }

  lemma {:induction false} ZeroPrefixBits(width: nat, bits: nat)
    requires width > 0 && bits < Pow2(width)
    ensures MaskBits(width, bits, 0) == bits
  {
    assert width % width == 0;
    AndOnes(bits, width);
  }

  lemma {:induction false} TopOfSmall(x: nat, k: nat)
    requires x < Pow2(k)
    ensures Top(x, k) == 0
  {
    if k == 0 {
    } else {
      TopOfSmall(x / 2, k - 1);
    }
  }

  /** One bucket for two addresses of a family exactly when their top bits agree. */
  ghost predicate BucketLaw(a: IpAddr, b: IpAddr, p4: nat, p6: nat) {
    Shares(a, b, p4, p6) <==> Top(a.bits, FreeBits(a, p4, p6)) == Top(b.bits, FreeBits(b, p4, p6))
  }

  ghost predicate OfFamily(ip: IpAddr, v4: bool) {
    IsAddress(ip) && ip.V4? == v4
  }

  /** With prefix 0 it fails for any two different addresses: no bit is asked to agree. */
  lemma {:induction false} BucketLawFailsAtZero(a: IpAddr, b: IpAddr, p4: nat, p6: nat)
    requires IsAddress(a) && IsAddress(b) && a.V4? == b.V4? && a != b && PrefixOf(a, p4, p6) == 0
    ensures !BucketLaw(a, b, p4, p6)
  {
    PrefixZeroMasksNothing(a, p4, p6);
    PrefixZeroMasksNothing(b, p4, p6);
    TopOfSmall(a.bits, WidthOf(a));
    TopOfSmall(b.bits, WidthOf(b));
  }

  /** The bucket law holds for all pairs of addresses of a family exactly when the prefix of
      that family is at least 1. */
  lemma {:induction false} BucketLawIff(v4: bool, p4: nat, p6: nat)
    ensures FamilyLaw(v4, p4, p6) <==> (if v4 then p4 else p6) >= 1
  {
    if (if v4 then p4 else p6) >= 1 {
      FamilyLawHolds(v4, p4, p6);
    } else {
      FamilyLawFails(v4, p4, p6);
    }
  }

  ghost predicate FamilyLaw(v4: bool, p4: nat, p6: nat) {
    forall a, b :: OfFamily(a, v4) && OfFamily(b, v4) ==> BucketLaw(a, b, p4, p6)
  }

  lemma {:induction false} FamilyLawHolds(v4: bool, p4: nat, p6: nat)
    requires (if v4 then p4 else p6) >= 1
    ensures FamilyLaw(v4, p4, p6)
  {
    forall a, b | OfFamily(a, v4) && OfFamily(b, v4)
      ensures BucketLaw(a, b, p4, p6)
    {
      SameBucketIff(a, b, p4, p6);
    }
  }

  lemma {:induction false} FamilyLawFails(v4: bool, p4: nat, p6: nat)
    requires (if v4 then p4 else p6) == 0
    ensures !FamilyLaw(v4, p4, p6)
  {
    var a, b := TwoOfFamily(v4);
    BucketLawFailsAtZero(a, b, p4, p6);
  }

  lemma {:induction false} TwoOfFamily(v4: bool) returns (a: IpAddr, b: IpAddr)
    ensures OfFamily(a, v4) && OfFamily(b, v4) && a != b
  {
    a, b := if v4 then V4(0) else V6(0), if v4 then V4(1) else V6(1);
    Pow2Grows(1, WidthOf(a));
  }

  lemma {:induction false} TopTop(x: nat, a: nat, b: nat)
    ensures Top(Top(x, a), b) == Top(x, a + b)
  {
    if a == 0 {
    } else {
      TopTop(x / 2, a - 1, b);
    }
  }

  lemma {:induction false} TopTimes(t: nat, a: nat, k: nat)
    ensures a <= k ==> Top(t * Pow2(a), k) == Top(t, k - a)
    ensures a >= k ==> Top(t * Pow2(a), k) == t * Pow2(a - k)
  {
    if a == 0 {
      assert t * Pow2(0) == t;
    } else if k > 0 {
      Double(t, Pow2(a - 1));
      TopTimes(t, a - 1, k - 1);
    }
  }

  lemma {:induction false} Pow2Add(a: nat, b: nat)
    ensures Pow2(a + b) == Pow2(a) * Pow2(b)
  {
    if a == 0 {
    } else {
      Pow2Add(a - 1, b);
    }
  }

  lemma {:induction false} RoundTwice(x: nat, a: nat, b: nat)
    ensures RoundDown(RoundDown(x, a), b) == RoundDown(x, if a < b then b else a)
  {
    var t := Top(x, a);
    TopTimes(t, a, b);
    if a < b {
      TopTop(x, a, b - a);
    } else {
      Pow2Add(a - b, b);
      assert t * Pow2(a - b) * Pow2(b) == t * (Pow2(a - b) * Pow2(b));
    }
  }

  lemma {:induction false} RoundDownIsLess(x: nat, k: nat)
    ensures RoundDown(x, k) <= x < RoundDown(x, k) + Pow2(k)
  {
    TopAndLow(x, k);
  }

  function Least(a: nat, b: nat): nat {
    if a < b then a else b
  }

  /** Masking by one prefix and then by another is masking by the shorter one. */
  lemma {:induction false} MaskTwice(ip: IpAddr, p4: nat, p6: nat, q4: nat, q6: nat)
    requires IsAddress(ip) && PrefixOf(ip, p4, p6) >= 1 && PrefixOf(ip, q4, q6) >= 1
    ensures MaskIp(MaskIp(ip, p4, p6), q4, q6) == MaskIp(ip, Least(p4, q4), Least(p6, q6))
  {
    var a, b := FreeBits(ip, p4, p6), FreeBits(ip, q4, q6);
    var once := ip.(bits := RoundDown(ip.bits, a));
    MaskRoundsDown(ip, p4, p6);
    RoundDownIsLess(ip.bits, a);
    MaskRoundsDown(once, q4, q6);
    MaskRoundsDown(ip, Least(p4, q4), Least(p6, q6));
    LeastFree(ip, p4, p6, q4, q6);
    RoundTwice(ip.bits, a, b);
  }

  lemma {:induction false} LeastFree(ip: IpAddr, p4: nat, p6: nat, q4: nat, q6: nat)
    ensures var a, b := FreeBits(ip, p4, p6), FreeBits(ip, q4, q6);
            FreeBits(ip, Least(p4, q4), Least(p6, q6)) == if a < b then b else a
  {
  }

  ghost function Bucket(ip: IpAddr, ipv4Prefix: nat, ipv6Prefix: nat): set<nat> {
    set x: nat | x < Pow2(WidthOf(ip)) && Shares(ip.(bits := x), ip, ipv4Prefix, ipv6Prefix)
  }

  lemma {:induction false} IntervalSize(s: set<nat>, lo: nat, n: nat)
    requires forall x: nat :: x in s <==> lo <= x < lo + n
    ensures |s| == n
  {
    if n == 0 {
      assert s == {};
    } else {
      IntervalSize(s - {lo + n - 1}, lo, n - 1);
      assert s == (s - {lo + n - 1}) + {lo + n - 1};
    }
  }

  lemma {:induction false} InBucket(ip: IpAddr, x: nat, ipv4Prefix: nat, ipv6Prefix: nat)
    requires IsAddress(ip) && PrefixOf(ip, ipv4Prefix, ipv6Prefix) >= 1 && x < Pow2(WidthOf(ip))
    ensures x in Bucket(ip, ipv4Prefix, ipv6Prefix)
       <==> Top(x, FreeBits(ip, ipv4Prefix, ipv6Prefix)) == Top(ip.bits, FreeBits(ip, ipv4Prefix, ipv6Prefix))
  {
    InBucketMeans(ip, x, ipv4Prefix, ipv6Prefix);
    SameFamilyIff(ip.(bits := x), ip, ipv4Prefix, ipv6Prefix);
  }

  lemma {:induction false} SameFamilyIff(a: IpAddr, b: IpAddr, p4: nat, p6: nat)
    requires IsAddress(a) && IsAddress(b) && a.V4? == b.V4? && PrefixOf(b, p4, p6) >= 1
    ensures Shares(a, b, p4, p6) <==> Top(a.bits, FreeBits(b, p4, p6)) == Top(b.bits, FreeBits(b, p4, p6))
  {
    SameBucketIff(a, b, p4, p6);
  }

  lemma {:induction false} InBucketMeans(ip: IpAddr, x: nat, p4: nat, p6: nat)
    requires x < Pow2(WidthOf(ip))
    ensures x in Bucket(ip, p4, p6) <==> Shares(ip.(bits := x), ip, p4, p6)
  {
  }

  lemma {:induction false} TopIsInterval(x: nat, t: nat, k: nat)
    ensures Top(x, k) == t <==> t * Pow2(k) <= x < t * Pow2(k) + Pow2(k)
  {
    TopAndLow(x, k);
    if t * Pow2(k) <= x < t * Pow2(k) + Pow2(k) {
      TopIsUnique(t, x - t * Pow2(k), k);
    }
  }

  lemma {:induction false} BucketIsInterval(ip: IpAddr, x: nat, ipv4Prefix: nat, ipv6Prefix: nat)
    requires IsAddress(ip) && PrefixOf(ip, ipv4Prefix, ipv6Prefix) >= 1
    ensures var k := FreeBits(ip, ipv4Prefix, ipv6Prefix); var lo := RoundDown(ip.bits, k);
            x in Bucket(ip, ipv4Prefix, ipv6Prefix) <==> lo <= x < lo + Pow2(k)
  {
    var k := FreeBits(ip, ipv4Prefix, ipv6Prefix);
    BucketFits(ip.bits, k, WidthOf(ip));
    TopIsInterval(x, Top(ip.bits, k), k);
    if x < Pow2(WidthOf(ip)) {
      InBucket(ip, x, ipv4Prefix, ipv6Prefix);
    }
  }

  /** Each bucket is an interval of exactly `2^(width - p)` addresses. */
  lemma {:induction false} BucketSize(ip: IpAddr, ipv4Prefix: nat, ipv6Prefix: nat)
    requires IsAddress(ip) && PrefixOf(ip, ipv4Prefix, ipv6Prefix) >= 1
    ensures |Bucket(ip, ipv4Prefix, ipv6Prefix)| == Pow2(FreeBits(ip, ipv4Prefix, ipv6Prefix))
  {
    var k := FreeBits(ip, ipv4Prefix, ipv6Prefix);
    var bucket := Bucket(ip, ipv4Prefix, ipv6Prefix);
    var lo, size := RoundDown(ip.bits, k), Pow2(k);
    forall x: nat
      ensures x in bucket <==> lo <= x < lo + size
    {
      BucketIsInterval(ip, x, ipv4Prefix, ipv6Prefix);
    }
    IntervalSize(bucket, lo, size);
  }

  lemma {:induction false} BucketFits(bits: nat, k: nat, w: nat)
    requires k <= w && bits < Pow2(w)
    ensures Top(bits, k) * Pow2(k) + Pow2(k) <= Pow2(w)
  {
    TopAndLow(bits, k);
    Pow2Add(w - k, k);
    var t, p, q := Top(bits, k), Pow2(k), Pow2(w - k);
    if t >= q {
      if t > q {
        LessProduct(q, t, p);
      }
    } else {
      LessProduct(t, q, p);
    }
  }
}
