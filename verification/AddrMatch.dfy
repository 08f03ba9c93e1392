/** Address prefix comparison (packet_helpers): a byte loop plus the high bits of one byte. */
module AddrMatch {
  import opened Arithmetic
  import opened RuleTypes

  function Pow2(n: nat): (p: nat)
    ensures p > 0
  {
    if n == 0 then 1 else 2 * Pow2(n - 1)
  }

  /** The number a byte string denotes in network order (first byte most significant). */
  function BigEndian(s: seq<byte>): nat {
    if |s| == 0 then 0 else BigEndian(s[..|s| - 1]) * 256 + s[|s| - 1]
  }

  /** Address width in bytes; 0 for a family the driver does not know. */
  function Width(family: u32): nat {
    if family == AF_INET then 4 else if family == AF_INET6 then 16 else 0
  }

  /** The number formed by the first `prefix` bits of a `width`-byte address. */
  function TopBits(a: Address, width: nat, prefix: nat): nat
    requires width <= 16 && prefix <= 8 * width
  {
    Quotient(BigEndian(a[..width]), Pow2(8 * width - prefix))
  }

  /** What a prefix condition means: known family, prefix within the width, same top bits. */
  predicate PrefixMatch(addr: Address, ruleAddr: Address, prefix: nat, family: u32) {
    var w := Width(family);
    w != 0 && prefix <= 8 * w && TopBits(addr, w, prefix) == TopBits(ruleAddr, w, prefix)
  }

  /** The byte and-ed with 0xFF << (8 - bits): its low 8 - bits bits cleared. */
  function HighBits(x: byte, bits: nat): byte
    requires 1 <= bits <= 7
  {
    x - Remainder(x, Pow2(8 - bits))
  }

  /** SkPkAddrMatch: whole bytes first, then the high bits of the next byte. */
  method Match(addr: Address, ruleAddr: Address, prefix: byte, family: u32) returns (matches: bool)
    ensures matches == PrefixMatch(addr, ruleAddr, prefix, family)
  {
    var width: nat;
    if family == AF_INET {
      width := 4;
    } else if family == AF_INET6 {
      width := 16;
    } else {
      return false;
    }
    if prefix > width * 8 {
      return false;
    }
    if prefix == 0 {
      WholeBytes(addr, width, 0);
      WholeBytes(ruleAddr, width, 0);
      return true;
    }
    var full := prefix / 8;
    var remBits := prefix % 8;
    var i := 0;
    while i < full
      invariant i <= full
      invariant addr[..i] == ruleAddr[..i]
    {
      if addr[i] != ruleAddr[i] {
        DifferentByte(addr, ruleAddr, width, prefix, i);
        return false;
      }
      assert addr[..i + 1] == addr[..i] + [addr[i]] == ruleAddr[..i + 1];
      i := i + 1;
    }
    if remBits == 0 {
      WholeBytes(addr, width, full);
      WholeBytes(ruleAddr, width, full);
      return true;
    }
    matches := HighBits(addr[full], remBits) == HighBits(ruleAddr[full], remBits);
    PartialEquality(addr, ruleAddr, width, full, remBits);
  }

  // ---- arithmetic of powers and big-endian numbers ----

  lemma {:induction false} Pow2Add(a: nat, b: nat)
    ensures Pow2(a + b) == Pow2(a) * Pow2(b)
  {
    if a > 0 {
      Pow2Add(a - 1, b);
      assert Pow2(a + b) == 2 * Pow2(a - 1 + b);
    }
  }

  lemma Pow2Of8()
    ensures Pow2(8) == 256
  {
    assert Pow2(4) == 16;
    Pow2Add(4, 4);
  }

  lemma BigEndianSnoc(s: seq<byte>, b: byte)
    ensures BigEndian(s + [b]) == BigEndian(s) * 256 + b
  {
    assert (s + [b])[..|s|] == s;
  }

  lemma {:induction false} DropLowBytes(s: seq<byte>, k: nat)
    requires k <= |s|
    ensures Quotient(BigEndian(s), Pow2(8 * (|s| - k))) == BigEndian(s[..k])
  {
    if k == |s| {
      assert s[..k] == s;
    } else {
      var t := s[..|s| - 1];
      DropLowBytes(t, k);
      assert t[..k] == s[..k];
      Pow2Add(8, 8 * (|t| - k));
      Pow2Of8();
      QuotientTwice(BigEndian(s), 256, Pow2(8 * (|t| - k)));
      QuotientUnique(BigEndian(s), 256, BigEndian(t), s[|s| - 1]);
    }
  }

  /** Byte strings of one length denote different numbers unless they are equal. */
  lemma {:induction false} BigEndianInjective(s: seq<byte>, t: seq<byte>)
    requires |s| == |t| && BigEndian(s) == BigEndian(t)
    ensures s == t
  {
    if |s| > 0 {
      var a, b := s[|s| - 1], t[|t| - 1];
      QuotientUnique(BigEndian(s), 256, BigEndian(s[..|s| - 1]), a);
      QuotientUnique(BigEndian(t), 256, BigEndian(t[..|t| - 1]), b);
      BigEndianInjective(s[..|s| - 1], t[..|t| - 1]);
      assert s == s[..|s| - 1] + [a] && t == t[..|t| - 1] + [b];
    }
  }

  lemma WholeBytes(a: Address, width: nat, full: nat)
    requires full <= width <= 16
    ensures TopBits(a, width, 8 * full) == BigEndian(a[..full])
  {
    DropLowBytes(a[..width], full);
    assert a[..width][..full] == a[..full];
  }

  lemma PartialByte(a: Address, width: nat, full: nat, bits: nat)
    requires full < width <= 16 && 1 <= bits <= 7
    ensures TopBits(a, width, 8 * full + bits)
         == BigEndian(a[..full]) * Pow2(bits) + Quotient(a[full], Pow2(8 - bits))
    ensures Quotient(a[full], Pow2(8 - bits)) < Pow2(bits)
  {
    var low := 8 * (width - full - 1);
    DropLowBytes(a[..width], full + 1);
    assert a[..width][..full + 1] == a[..full] + [a[full]];
    BigEndianSnoc(a[..full], a[full]);
    Pow2Add(low, 8 - bits);
    QuotientTwice(BigEndian(a[..width]), Pow2(low), Pow2(8 - bits));
    assert low + (8 - bits) == 8 * width - (8 * full + bits);
    Pow2Add(bits, 8 - bits);
    Pow2Of8();
    SplitByte(BigEndian(a[..full]), a[full], Pow2(bits), Pow2(8 - bits));
  }

  lemma SplitByte(hi: nat, b: nat, p: nat, q: nat)
    requires p > 0 && q > 0 && p * q == 256 && b < 256
    ensures Quotient(hi * 256 + b, q) == hi * p + Quotient(b, q) && Quotient(b, q) < p
  {
    var r := QuotientRemainder(b, q);
    var k := Quotient(b, q);
    calc {
      hi * 256 + b;
      hi * (p * q) + q * k + r;
      { MulRegroup(q, p, hi, k); }
      q * (p * hi + k) + r;
    }
    QuotientUnique(hi * 256 + b, q, hi * p + k, r);
    MulStep(q, k - p);
    assert q * (k - p) == q * k - q * p;
  }

  lemma HighBitsIsQuotient(x: byte, y: byte, bits: nat)
    requires 1 <= bits <= 7
    ensures HighBits(x, bits) == HighBits(y, bits)
       <==> Quotient(x, Pow2(8 - bits)) == Quotient(y, Pow2(8 - bits))
  {
    var p := Pow2(8 - bits);
    var r := QuotientRemainder(x, p);
    var q := QuotientRemainder(y, p);
    QuotientUnique(p * Quotient(x, p), p, Quotient(x, p), 0);
    QuotientUnique(p * Quotient(y, p), p, Quotient(y, p), 0);
  }

  // ---- properties of the prefix relation ----

  lemma PartialEquality(a: Address, b: Address, width: nat, full: nat, bits: nat)
    requires full < width <= 16 && 1 <= bits <= 7
    requires a[..full] == b[..full]
    ensures TopBits(a, width, 8 * full + bits) == TopBits(b, width, 8 * full + bits)
       <==> HighBits(a[full], bits) == HighBits(b[full], bits)
  {
    HighBitsIsQuotient(a[full], b[full], bits);
    PartialByte(a, width, full, bits);
    PartialByte(b, width, full, bits);
  }

  lemma DifferentByte(a: Address, b: Address, width: nat, p: nat, i: nat)
    requires width <= 16 && p <= 8 * width && i < p / 8
    requires a[i] != b[i]
    ensures TopBits(a, width, p) != TopBits(b, width, p)
  {
    if TopBits(a, width, p) == TopBits(b, width, p) {
      ShorterPrefix(a, b, width, p, 8 * (i + 1));
      WholeBytes(a, width, i + 1);
      WholeBytes(b, width, i + 1);
      BigEndianInjective(a[..i + 1], b[..i + 1]);
      assert false by { SamePrefixSameByte(a, b, i); }
    }
  }

  lemma SamePrefixSameByte(a: seq<byte>, b: seq<byte>, i: nat)
    requires i < |a| && i < |b| && a[..i + 1] == b[..i + 1]
    ensures a[i] == b[i]
  {
    assert a[i] == a[..i + 1][i] == b[..i + 1][i] == b[i];
  }

  lemma ShorterPrefix(a: Address, b: Address, width: nat, p: nat, q: nat)
    requires width <= 16 && q <= p <= 8 * width
    requires TopBits(a, width, p) == TopBits(b, width, p)
    ensures TopBits(a, width, q) == TopBits(b, width, q)
  {
    Pow2Add(8 * width - p, p - q);
    assert 8 * width - p + (p - q) == 8 * width - q;
    QuotientTwice(BigEndian(a[..width]), Pow2(8 * width - p), Pow2(p - q));
    QuotientTwice(BigEndian(b[..width]), Pow2(8 * width - p), Pow2(p - q));
  }

  /** A longer matching prefix implies every shorter one. */
  lemma LongerImpliesShorter(a: Address, b: Address, p: nat, q: nat, family: u32)
    requires q <= p && PrefixMatch(a, b, p, family)
    ensures PrefixMatch(a, b, q, family)
  {
    ShorterPrefix(a, b, Width(family), p, q);
  }

  /** The full-width prefix is address equality at that width; the empty prefix is a wildcard. */
  lemma PrefixExtremes(a: Address, b: Address, family: u32)
    requires Width(family) != 0
    ensures PrefixMatch(a, b, 0, family)
    ensures PrefixMatch(a, b, 8 * Width(family), family)
       <==> a[..Width(family)] == b[..Width(family)]
  {
    var w := Width(family);
    WholeBytes(a, w, 0);
    WholeBytes(b, w, 0);
    WholeBytes(a, w, w);
    WholeBytes(b, w, w);
    if PrefixMatch(a, b, 8 * w, family) {
      BigEndianInjective(a[..w], b[..w]);
    }
  }

  /** A v4 address has 32 bits, in its first 4 bytes, a v6 address 128; any other family, or a longer
      prefix, matches nothing. */
  lemma FamiliesAre(a: Address, b: Address, prefix: nat, family: u32)
    ensures PrefixMatch(a, b, 32, 2) <==> a[..4] == b[..4]
    ensures PrefixMatch(a, b, 128, 23) <==> a == b
    ensures PrefixMatch(a, b, prefix, family) ==> (family == 2 && prefix <= 32) || (family == 23 && prefix <= 128)
  {
    PrefixExtremes(a, b, 2);
    PrefixExtremes(a, b, 23);
    assert a[..16] == a && b[..16] == b;
  }
}
