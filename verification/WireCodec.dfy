/** The bytes of a rule in a control message: little-endian fields, the C structure's padding. */
module WireCodec {
  import opened RuleTypes

  // ---- numbers ----

  function Pow256(width: nat): nat { if width == 0 then 1 else 256 * Pow256(width - 1) }

  function Num(b: seq<byte>): nat { if |b| == 0 then 0 else b[0] + 256 * Num(b[1..]) }

  function Bytes(n: nat, width: nat): (b: seq<byte>)
    ensures |b| == width
  {
    if width == 0 then [] else [n % 256] + Bytes(n / 256, width - 1)
  }

  lemma {:induction false} NumOfBytes(n: nat, width: nat)
    requires n < Pow256(width)
    ensures Num(Bytes(n, width)) == n
  {
    if width > 0 {
      NumOfBytes(n / 256, width - 1);
      assert Bytes(n, width)[1..] == Bytes(n / 256, width - 1);
    }
  }

  lemma LowByte(low: nat, high: nat)
    requires low < 256
    ensures (low + 256 * high) % 256 == low && (low + 256 * high) / 256 == high
  {
  }

  lemma {:induction false} BytesOfNum(b: seq<byte>)
    ensures Num(b) < Pow256(|b|) && Bytes(Num(b), |b|) == b
  {
    if |b| > 0 {
      BytesOfNum(b[1..]);
      LowByte(b[0], Num(b[1..]));
      assert b == [b[0]] + b[1..];
    }
  }

  lemma Powers()
    ensures Pow256(2) == 0x1_0000 && Pow256(4) == 0x1_0000_0000 && Pow256(8) == TWO_64
  {
    assert Pow256(3) == 256 * Pow256(2);
    assert Pow256(5) == 256 * Pow256(4);
    assert Pow256(7) == 256 * Pow256(6);
  }

  function U16(b: seq<byte>): u16
    requires |b| == 2
  {
    b[0] + 256 * (b[1] as nat)
  }

  function U32(b: seq<byte>): u32
    requires |b| == 4
  {
    Powers();
    BytesOfNum(b);
    Num(b)
  }

  function U64(b: seq<byte>): u64
    requires |b| == 8
  {
    Powers();
    BytesOfNum(b);
    Num(b)
  }

  lemma RoundTrip32(n: u32)
    ensures U32(Bytes(n, 4)) == n
  {
    Powers();
    NumOfBytes(n, 4);
  }

  lemma RoundTrip64(n: u64)
    ensures U64(Bytes(n, 8)) == n
  {
    Powers();
    NumOfBytes(n, 8);
  }

  // ---- arrays of words ----

  function Words(ns: seq<u32>): (b: seq<byte>)
    ensures |b| == 4 * |ns|
  {
    if |ns| == 0 then [] else Bytes(ns[0], 4) + Words(ns[1..])
  }

  function Word(b: seq<byte>, i: nat): u32
    requires 4 * i + 4 <= |b|
  {
    U32(b[4 * i..4 * i + 4])
  }

  lemma {:induction false} WordOfWords(ns: seq<u32>, i: nat)
    requires i < |ns|
    ensures Word(Words(ns), i) == ns[i]
  {
    if i == 0 {
      assert Words(ns)[..4] == Bytes(ns[0], 4);
      RoundTrip32(ns[0]);
    } else {
      WordOfWords(ns[1..], i - 1);
      assert Words(ns)[4 * i..4 * i + 4] == Words(ns[1..])[4 * (i - 1)..4 * (i - 1) + 4];
    }
  }

  lemma WordBehind(a: seq<byte>, i: nat)
    requires 4 * i + 8 <= |a|
    ensures Word(a[4..], i) == Word(a, i + 1)
  {
    assert a[4..][4 * i..4 * i + 4] == a[4 * (i + 1)..4 * (i + 1) + 4];
  }

  lemma FirstWordDetermines(a: seq<byte>, b: seq<byte>)
    requires |a| >= 4 && |b| >= 4 && Word(a, 0) == Word(b, 0)
    ensures a[..4] == b[..4]
  {
    BytesOfNum(a[..4]);
    BytesOfNum(b[..4]);
    assert a[0..4] == a[..4] && b[0..4] == b[..4];
  }

  lemma {:induction false} WordsDetermine(a: seq<byte>, b: seq<byte>, n: nat)
    requires |a| == |b| == 4 * n && forall i :: 0 <= i < n ==> Word(a, i) == Word(b, i)
    ensures a == b
  {
    if n > 0 {
      FirstWordDetermines(a, b);
      forall i | 0 <= i < n - 1 ensures Word(a[4..], i) == Word(b[4..], i) {
        WordBehind(a, i);
        WordBehind(b, i);
        assert Word(a, i + 1) == Word(b, i + 1);
      }
      WordsDetermine(a[4..], b[4..], n - 1);
      assert a == a[..4] + a[4..] && b == b[..4] + b[4..];
    }
  }

  // ---- SK_RULE: 176 bytes at natural alignment; bytes 154..156 and 172..176 are padding ----

  function DecodeRule(b: seq<byte>): Rule
    requires |b| == RULE_BYTES
  {
    var w, p, t := b[8..48], b[72..88], b[156..172];
    Rule(U64(b[..8]), Word(w, 0), Word(w, 1), Word(w, 2), Word(w, 3),
         Word(w, 4), Word(w, 5), Word(w, 6), Word(w, 7), Word(w, 8), Word(w, 9),
         U64(b[48..56]), U64(b[56..64]), U64(b[64..72]),
         Word(p, 0), Word(p, 1), Word(p, 2), Word(p, 3),
         b[88..104], b[104..120], b[120], b[121], b[122..154],
         Word(t, 0), Word(t, 1), Word(t, 2), Word(t, 3))
  }

  // ---- the layout, independently: C members at their natural alignment ----

  /** A member of a C structure: its size in bytes and the alignment of its type. */
  datatype Member = Member(size: nat, align: nat)

  /** The next multiple of the alignment. */
  function Aligned(at: nat, align: nat): nat
    requires align > 0
  {
    if at % align == 0 then at else at + align - at % align
  }

  predicate Members(ms: seq<Member>) { forall i :: 0 <= i < |ms| ==> ms[i].align > 0 }

  /** Where the members end. */
  function End(ms: seq<Member>): nat
    requires Members(ms)
  {
    if |ms| == 0 then 0
    else Aligned(End(ms[..|ms| - 1]), ms[|ms| - 1].align) + ms[|ms| - 1].size
  }

  /** The offset of member i: behind the members before it, at its own alignment. */
  function OffsetOf(ms: seq<Member>, i: nat): nat
    requires Members(ms) && i < |ms|
  {
    Aligned(End(ms[..i]), ms[i].align)
  }

  /** SK_RULE as declared, members of one type together: the id; ten words from priority to processId;
      appId and the two ends of the window; four port words; two addresses; two prefixes; the user id;
      its length and the three words of the rate. */
  function RuleMembers(): (ms: seq<Member>)
    ensures |ms| == 8 && Members(ms)
  {
    [Member(8, 8), Member(40, 4), Member(24, 8), Member(16, 4), Member(32, 1), Member(2, 1), Member(32, 1),
     Member(16, 4)]
  }

  lemma EndSnoc(ms: seq<Member>, i: nat)
    requires Members(ms) && i < |ms|
    ensures End(ms[..i + 1]) == OffsetOf(ms, i) + ms[i].size
  {
    assert ms[..i + 1][..i] == ms[..i];
  }

  lemma Placed(ms: seq<Member>, i: nat, m: Member, from: nat)
    requires Members(ms) && i < |ms| && ms[i] == m && End(ms[..i]) == from
    ensures OffsetOf(ms, i) == Aligned(from, m.align) && End(ms[..i + 1]) == Aligned(from, m.align) + m.size
  {
    EndSnoc(ms, i);
  }

  lemma FrontOffsets()
    ensures var ms := RuleMembers();
      && OffsetOf(ms, 0) == 0 && OffsetOf(ms, 1) == 8 && OffsetOf(ms, 2) == 48 && OffsetOf(ms, 3) == 72
      && End(ms[..4]) == 88
  {
    var ms := RuleMembers();
    assert ms[..0] == [];
    Placed(ms, 0, Member(8, 8), 0);
    Placed(ms, 1, Member(40, 4), 8);
    Placed(ms, 2, Member(24, 8), 48);
    Placed(ms, 3, Member(16, 4), 72);
  }

  /** The offsets the declaration gives; the structure ends at the next multiple of 8, its size. */
  lemma RuleOffsets()
    ensures var ms := RuleMembers();
      && OffsetOf(ms, 0) == 0 && OffsetOf(ms, 1) == 8 && OffsetOf(ms, 2) == 48 && OffsetOf(ms, 3) == 72
      && OffsetOf(ms, 4) == 88 && OffsetOf(ms, 5) == 120 && OffsetOf(ms, 6) == 122 && OffsetOf(ms, 7) == 156
      && Aligned(End(ms), 8) == RULE_BYTES == 176
  {
    var ms := RuleMembers();
    FrontOffsets();
    Placed(ms, 4, Member(32, 1), 88);
    Placed(ms, 5, Member(2, 1), 120);
    Placed(ms, 6, Member(32, 1), 122);
    Placed(ms, 7, Member(16, 4), 154);
    assert ms[..8] == ms;
  }

  /** The same for a structure of three members. */
  lemma ThreeOffsets(a: Member, b: Member, c: Member)
    requires a.align > 0 && b.align > 0 && c.align > 0
    ensures var ms := [a, b, c];
      && OffsetOf(ms, 0) == 0 && OffsetOf(ms, 1) == Aligned(a.size, b.align)
      && OffsetOf(ms, 2) == Aligned(OffsetOf(ms, 1) + b.size, c.align)
      && End(ms) == OffsetOf(ms, 2) + c.size
  {
    var ms := [a, b, c];
    assert ms[..0] == [];
    Placed(ms, 0, a, 0);
    Placed(ms, 1, b, a.size);
    Placed(ms, 2, c, OffsetOf(ms, 1) + b.size);
    assert ms[..3] == ms;
  }

  /** The little-endian numbers at an offset. */
  function Long32(b: seq<byte>, at: nat): nat
    requires at + 4 <= |b|
  {
    b[at] as nat + 0x100 * (b[at + 1] as nat) + 0x1_0000 * (b[at + 2] as nat) + 0x100_0000 * (b[at + 3] as nat)
  }

  function Long64(b: seq<byte>, at: nat): nat
    requires at + 8 <= |b|
  {
    Long32(b, at) + 0x1_0000_0000 * Long32(b, at + 4)
  }

  lemma NumFour(b: seq<byte>)
    requires |b| == 4
    ensures Num(b) == Long32(b, 0)
  {
    assert b[1..][1..] == b[2..] && b[2..][1..] == b[3..] && b[3..][1..] == [];
    assert Num(b[3..]) == b[3] && Num(b[2..]) == b[2] + 256 * Num(b[3..]);
  }

  lemma {:induction false} NumAppend(a: seq<byte>, b: seq<byte>)
    ensures Num(a + b) == Num(a) + Pow256(|a|) * Num(b)
  {
    if |a| == 0 {
      assert a + b == b;
    } else {
      NumAppend(a[1..], b);
      assert (a + b)[1..] == a[1..] + b && (a + b)[0] == a[0];
      MulThree(256, Pow256(|a| - 1), Num(b));
    }
  }

  lemma MulThree(a: nat, b: nat, c: nat)
    ensures a * (b * c) == (a * b) * c
  {
  }

  lemma U32Is(b: seq<byte>, at: nat)
    requires at + 4 <= |b|
    ensures U32(b[at..at + 4]) == Long32(b, at)
  {
    NumFour(b[at..at + 4]);
  }

  lemma U64Is(b: seq<byte>, at: nat)
    requires at + 8 <= |b|
    ensures U64(b[at..at + 8]) == Long64(b, at)
  {
    var low, high := b[at..at + 4], b[at + 4..at + 8];
    assert b[at..at + 8] == low + high;
    NumAppend(low, high);
    NumFour(low);
    NumFour(high);
    Powers();
  }

  lemma SliceOfSlice(b: seq<byte>, from: nat, to: nat, at: nat)
    requires from <= to <= |b| && at + 4 <= to - from
    ensures b[from..to][at..at + 4] == b[from + at..from + at + 4]
  {
    var x, y := b[from..to][at..at + 4], b[from + at..from + at + 4];
    assert x[0] == y[0] && x[1] == y[1] && x[2] == y[2] && x[3] == y[3];
    assert x == [x[0], x[1], x[2], x[3]] && y == [y[0], y[1], y[2], y[3]];
  }

  lemma WordAt(b: seq<byte>, from: nat, to: nat, i: nat)
    requires from <= to <= |b| && 4 * i + 4 <= to - from
    ensures Word(b[from..to], i) == Long32(b, from + 4 * i)
  {
    SliceOfSlice(b, from, to, 4 * i);
    U32Is(b, from + 4 * i);
  }

  // Every field is the little-endian number, or the bytes, at the offset its declaration gives it.

  /** The ten words from offset 8. */
  lemma HeadAt(b: seq<byte>)
    requires |b| == RULE_BYTES
    ensures var r := DecodeRule(b);
      && r.priority == Long32(b, 8) && r.mask == Long32(b, 12) && r.action == Long32(b, 16)
      && r.enabled == Long32(b, 20) && r.family == Long32(b, 24) && r.direction == Long32(b, 28)
      && r.protocol == Long32(b, 32) && r.layerId == Long32(b, 36) && r.ifIndex == Long32(b, 40)
      && r.processId == Long32(b, 44)
  {
    WordAt(b, 8, 48, 0);
    WordAt(b, 8, 48, 1);
    WordAt(b, 8, 48, 2);
    WordAt(b, 8, 48, 3);
    WordAt(b, 8, 48, 4);
    WordAt(b, 8, 48, 5);
    WordAt(b, 8, 48, 6);
    WordAt(b, 8, 48, 7);
    WordAt(b, 8, 48, 8);
    WordAt(b, 8, 48, 9);
  }

  /** The ports from offset 72. */
  lemma PortsAt(b: seq<byte>)
    requires |b| == RULE_BYTES
    ensures var r := DecodeRule(b);
      && r.localPortMin == Long32(b, 72) && r.localPortMax == Long32(b, 76) && r.remotePortMin == Long32(b, 80)
      && r.remotePortMax == Long32(b, 84)
  {
    WordAt(b, 72, 88, 0);
    WordAt(b, 72, 88, 1);
    WordAt(b, 72, 88, 2);
    WordAt(b, 72, 88, 3);
  }

  /** The length of the user id and the token parameters from offset 156. */
  lemma RateAt(b: seq<byte>)
    requires |b| == RULE_BYTES
    ensures var r := DecodeRule(b);
      && r.sidLength == Long32(b, 156) && r.rateTokens == Long32(b, 160) && r.rateIntervalMs == Long32(b, 164)
      && r.burst == Long32(b, 168)
  {
    WordAt(b, 156, 172, 0);
    WordAt(b, 156, 172, 1);
    WordAt(b, 156, 172, 2);
    WordAt(b, 156, 172, 3);
  }

  /** The id at 0, the application id and the window from offset 48. */
  lemma QuadsAt(b: seq<byte>)
    requires |b| == RULE_BYTES
    ensures var r := DecodeRule(b);
      && r.ruleId == Long64(b, 0) && r.appId == Long64(b, 48)
      && r.notBefore == Long64(b, 56) && r.notAfter == Long64(b, 64)
  {
    U64Is(b, 0);
    U64Is(b, 48);
    U64Is(b, 56);
    U64Is(b, 64);
    assert b[..8] == b[0..8];
  }

  /** The addresses from offset 88, the prefixes from 120, the user id from 122. */
  lemma BytesAt(b: seq<byte>)
    requires |b| == RULE_BYTES
    ensures var r := DecodeRule(b);
      && r.localAddr == b[88..88 + 16] && r.remoteAddr == b[104..104 + 16]
      && r.localPrefix == b[120] && r.remotePrefix == b[121] && r.sid == b[122..122 + 32]
  {
  }

  function Head(r: Rule): seq<u32> {
    [r.priority, r.mask, r.action, r.enabled, r.family, r.direction, r.protocol, r.layerId, r.ifIndex, r.processId]
  }

  function Ports(r: Rule): seq<u32> { [r.localPortMin, r.localPortMax, r.remotePortMin, r.remotePortMax] }

  function Rate(r: Rule): seq<u32> { [r.sidLength, r.rateTokens, r.rateIntervalMs, r.burst] }

  /** Everything up to the addresses, and everything from them on. */
  function EncodeFront(r: Rule): (b: seq<byte>)
    ensures |b| == 88
  {
    Bytes(r.ruleId, 8) + Words(Head(r)) + (Bytes(r.appId, 8) + Bytes(r.notBefore, 8) + Bytes(r.notAfter, 8))
    + Words(Ports(r))
  }

  function EncodeBack(r: Rule): (b: seq<byte>)
    ensures |b| == 88
  {
    (r.localAddr + r.remoteAddr) + [r.localPrefix, r.remotePrefix] + r.sid + [0, 0] + Words(Rate(r)) + [0, 0, 0, 0]
  }

  function EncodeRule(r: Rule): (b: seq<byte>)
    ensures |b| == RULE_BYTES
  {
    EncodeFront(r) + EncodeBack(r)
  }

  lemma FrontParts(r: Rule)
    ensures var b := EncodeRule(r);
            && b[..8] == Bytes(r.ruleId, 8) && b[8..48] == Words(Head(r))
            && b[48..56] == Bytes(r.appId, 8) && b[56..64] == Bytes(r.notBefore, 8)
            && b[64..72] == Bytes(r.notAfter, 8) && b[72..88] == Words(Ports(r))
  {
    var f := EncodeFront(r);
    assert EncodeRule(r)[..88] == f;
    assert f[48..72] == Bytes(r.appId, 8) + Bytes(r.notBefore, 8) + Bytes(r.notAfter, 8);
  }

  lemma BackParts(r: Rule)
    ensures var b := EncodeRule(r);
            && b[88..104] == r.localAddr && b[104..120] == r.remoteAddr
            && b[120] == r.localPrefix && b[121] == r.remotePrefix && b[122..154] == r.sid
            && b[156..172] == Words(Rate(r))
  {
    assert EncodeRule(r)[88..] == EncodeBack(r);
  }

  lemma HeadWords(r: Rule)
    ensures var w := Words(Head(r)); forall i :: 0 <= i < 10 ==> Word(w, i) == Head(r)[i]
  {
    forall i | 0 <= i < 10 ensures Word(Words(Head(r)), i) == Head(r)[i] { WordOfWords(Head(r), i); }
  }

  lemma OtherWords(r: Rule)
    ensures var p, t := Words(Ports(r)), Words(Rate(r));
            forall i :: 0 <= i < 4 ==> Word(p, i) == Ports(r)[i] && Word(t, i) == Rate(r)[i]
  {
    forall i | 0 <= i < 4
      ensures Word(Words(Ports(r)), i) == Ports(r)[i] && Word(Words(Rate(r)), i) == Rate(r)[i]
    {
      WordOfWords(Ports(r), i);
      WordOfWords(Rate(r), i);
    }
  }

  /** Decoding undoes encoding. */
  lemma RuleRoundTrip(r: Rule)
    ensures DecodeRule(EncodeRule(r)) == r
  {
    FrontParts(r);
    BackParts(r);
    HeadWords(r);
    OtherWords(r);
    RoundTrip64(r.ruleId);
    RoundTrip64(r.appId);
    RoundTrip64(r.notBefore);
    RoundTrip64(r.notAfter);
  }

  lemma QuadsDetermine(a: seq<byte>, b: seq<byte>)
    requires |a| == |b| == 8 && U64(a) == U64(b)
    ensures a == b
  {
    BytesOfNum(a);
    BytesOfNum(b);
  }

  /** Blocks that decode alike agree on every byte that is a field or part of one. */
  lemma FieldsDetermine(a: seq<byte>, b: seq<byte>)
    requires |a| == |b| == RULE_BYTES && DecodeRule(a) == DecodeRule(b)
    ensures a[..8] == b[..8] && a[48..56] == b[48..56] && a[56..64] == b[56..64] && a[64..72] == b[64..72]
  {
    QuadsDetermine(a[..8], b[..8]);
    QuadsDetermine(a[48..56], b[48..56]);
    QuadsDetermine(a[56..64], b[56..64]);
    QuadsDetermine(a[64..72], b[64..72]);
  }

  lemma FourDetermine(a: seq<byte>, b: seq<byte>)
    requires |a| == |b| == 16
    requires Word(a, 0) == Word(b, 0) && Word(a, 1) == Word(b, 1)
    requires Word(a, 2) == Word(b, 2) && Word(a, 3) == Word(b, 3)
    ensures a == b
  {
    forall i | 0 <= i < 4 ensures Word(a, i) == Word(b, i) {
      if i == 0 { } else if i == 1 { } else if i == 2 { } else { assert i == 3; }
    }
    WordsDetermine(a, b, 4);
  }

  lemma TenDetermine(a: seq<byte>, b: seq<byte>)
    requires |a| == |b| == 40
    requires Word(a, 0) == Word(b, 0) && Word(a, 1) == Word(b, 1) && Word(a, 2) == Word(b, 2)
    requires Word(a, 3) == Word(b, 3) && Word(a, 4) == Word(b, 4) && Word(a, 5) == Word(b, 5)
    requires Word(a, 6) == Word(b, 6) && Word(a, 7) == Word(b, 7) && Word(a, 8) == Word(b, 8)
    requires Word(a, 9) == Word(b, 9)
    ensures a == b
  {
    forall i | 0 <= i < 10 ensures Word(a, i) == Word(b, i) {
      assert i == 0 || i == 1 || i == 2 || i == 3 || i == 4 || i == 5 || i == 6 || i == 7 || i == 8 || i == 9;
    }
    WordsDetermine(a, b, 10);
  }

  lemma HeadDetermines(a: seq<byte>, b: seq<byte>)
    requires |a| == |b| == RULE_BYTES && DecodeRule(a) == DecodeRule(b)
    ensures a[8..48] == b[8..48]
  {
    TenDetermine(a[8..48], b[8..48]);
  }

  lemma PortsDetermine(a: seq<byte>, b: seq<byte>)
    requires |a| == |b| == RULE_BYTES && DecodeRule(a) == DecodeRule(b)
    ensures a[72..88] == b[72..88]
  {
    FourDetermine(a[72..88], b[72..88]);
  }

  lemma RateDetermines(a: seq<byte>, b: seq<byte>)
    requires |a| == |b| == RULE_BYTES && DecodeRule(a) == DecodeRule(b)
    ensures a[156..172] == b[156..172]
  {
    FourDetermine(a[156..172], b[156..172]);
  }

  lemma BytesDetermine(a: seq<byte>, b: seq<byte>)
    requires |a| == |b| == RULE_BYTES && DecodeRule(a) == DecodeRule(b)
    ensures a[88..104] == b[88..104] && a[104..120] == b[104..120]
    ensures a[120] == b[120] && a[121] == b[121] && a[122..154] == b[122..154]
  {
  }

  /** Every byte but the padding matters: two blocks are one rule iff they agree elsewhere. */
  lemma DecodeLosesOnlyPadding(a: seq<byte>, b: seq<byte>)
    requires |a| == |b| == RULE_BYTES
    ensures DecodeRule(a) == DecodeRule(b) <==> a[..154] == b[..154] && a[156..172] == b[156..172]
  {
    if DecodeRule(a) == DecodeRule(b) {
      FieldsDetermine(a, b);
      HeadDetermines(a, b);
      PortsDetermine(a, b);
      RateDetermines(a, b);
      BytesDetermine(a, b);
      ByParts(a);
      ByParts(b);
    } else if a[..154] == b[..154] && a[156..172] == b[156..172] {
      AgreeingDecodes(a, b);
    }
  }

  lemma AgreeingDecodes(a: seq<byte>, b: seq<byte>)
    requires |a| == |b| == RULE_BYTES && a[..154] == b[..154] && a[156..172] == b[156..172]
    ensures DecodeRule(a) == DecodeRule(b)
  {
    Prefixes(a);
    Prefixes(b);
  }

  lemma ByParts(a: seq<byte>)
    requires |a| == RULE_BYTES
    ensures a[..154] == a[..8] + a[8..48] + a[48..56] + a[56..64] + a[64..72] + a[72..88] + a[88..104] + a[104..120]
                        + [a[120]] + [a[121]] + a[122..154]
  {
  }

  lemma Prefixes(a: seq<byte>)
    requires |a| == RULE_BYTES
    ensures var p := a[..154];
            && a[..8] == p[..8] && a[8..48] == p[8..48] && a[48..56] == p[48..56] && a[56..64] == p[56..64]
            && a[64..72] == p[64..72] && a[72..88] == p[72..88] && a[88..104] == p[88..104]
            && a[104..120] == p[104..120] && a[120] == p[120] && a[121] == p[121] && a[122..154] == p[122..154]
  {
  }
}
