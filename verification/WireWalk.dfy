/** Rules in control messages: one wire, and the walk over a REPLACE payload. */
module WireWalk {
  import opened RuleTypes
  import opened Sequences
  import opened RuleMatch
  import opened RuleOrder
  import opened WireCodec
  import opened RuleStore
  import opened Arithmetic

  const WIRE_BYTES: nat := 184      // a rule, pathChars, pathOffset
  const HEADER_BYTES: nat := 16     // count, rulesBytes, expectedVersion
  const PATH_MAX: nat := 260
  const APPID_BIT: nat := 0x100

  function PathChars(w: seq<byte>): u32
    requires |w| >= WIRE_BYTES
  {
    U32(w[176..180])
  }

  function PathOffset(w: seq<byte>): u32
    requires |w| >= WIRE_BYTES
  {
    U32(w[180..184])
  }

  /** A byte string that is exactly one wire. */
  predicate WellFormed(w: seq<byte>) {
    && |w| >= WIRE_BYTES
    && PathChars(w) <= PATH_MAX
    && (PathChars(w) == 0 ==> PathOffset(w) == 0 && |w| == WIRE_BYTES)
    && (PathChars(w) > 0 ==>
          WIRE_BYTES <= PathOffset(w) && PathOffset(w) % 2 == 0 && |w| == PathOffset(w) + 2 * PathChars(w))
  }

  /** skValidateWire over what remains of the area: the length of the wire at its front. */
  function ValidateWire(area: seq<byte>): Option<nat> {
    if |area| < WIRE_BYTES then None
    else if PathChars(area) > PATH_MAX then None
    else if PathChars(area) == 0 then (if PathOffset(area) != 0 then None else Some(WIRE_BYTES))
    else if PathOffset(area) < WIRE_BYTES then None
    else if PathOffset(area) % 2 != 0 then None
    else
      var need := PathOffset(area) + PathChars(area) * 2;
      if need > |area| then None else Some(need)
  }

  /** The check accepts exactly the areas that start with a wire, and finds its end. */
  lemma ValidateFindsTheWire(area: seq<byte>, n: nat)
    ensures ValidateWire(area) == Some(n) <==> n <= |area| && WellFormed(area[..n])
  {
    if WIRE_BYTES <= n <= |area| {
      assert area[..n][176..180] == area[176..180] && area[..n][180..184] == area[180..184];
    }
  }

  /** The two words behind the rule, at the offsets the declaration gives them. */
  lemma WireTail(w: seq<byte>)
    requires |w| >= WIRE_BYTES
    ensures var ms := [Member(176, 8), Member(4, 4), Member(4, 4)];
      && OffsetOf(ms, 1) == 176 && OffsetOf(ms, 2) == 180 && Aligned(End(ms), 8) == WIRE_BYTES
    ensures PathChars(w) == Long32(w, 176) && PathOffset(w) == Long32(w, 180)
  {
    ThreeOffsets(Member(176, 8), Member(4, 4), Member(4, 4));
    U32Is(w, 176);
    U32Is(w, 180);
  }

  // ---- conversion ----

  function SetAppId(mask: u32): u32 {
    if mask / APPID_BIT % 2 == 1 then mask else mask + APPID_BIT
  }

  function ClearAppId(mask: u32): u32 {
    if mask / APPID_BIT % 2 == 1 then mask - APPID_BIT else mask
  }

  /** UTF-16 code units, little-endian. */
  function PathOf(b: seq<byte>): seq<u16> {
    if |b| < 2 then [] else [U16(b[..2])] + PathOf(b[2..])
  }

  function PathBytes(path: seq<u16>): (b: seq<byte>)
    ensures |b| == 2 * |path|
  {
    if |path| == 0 then [] else [path[0] % 256, path[0] / 256] + PathBytes(path[1..])
  }

  lemma {:induction false} PathRoundTrip(path: seq<u16>)
    ensures PathOf(PathBytes(path)) == path
  {
    if |path| > 0 {
      PathRoundTrip(path[1..]);
      assert PathBytes(path)[2..] == PathBytes(path[1..]);
      assert path == [path[0]] + path[1..];
    }
  }

  /** Code unit i stands in bytes 2i and 2i + 1, the low one first. */
  lemma {:induction false} PathAt(b: seq<byte>, i: nat)
    requires 2 * i + 2 <= |b|
    ensures i < |PathOf(b)| && PathOf(b)[i] == b[2 * i] as nat + 256 * (b[2 * i + 1] as nat)
  {
    assert PathOf(b) == [U16(b[..2])] + PathOf(b[2..]);
    if i > 0 {
      PathAt(b[2..], i - 1);
      assert b[2..][2 * (i - 1)] == b[2 * i] && b[2..][2 * (i - 1) + 1] == b[2 * i + 1];
    }
  }

  /** What the driver makes of a rule sent with a path: callers cannot choose the id. */
  function Normalized(r: Rule, path: seq<u16>): Rule {
    if |path| == 0 then r.(appId := 0, mask := ClearAppId(r.mask))
    else r.(appId := AppId(path), mask := SetAppId(r.mask))
  }

  lemma LowBit(m: nat, bit: nat, k: nat)
    requires bit > 0
    ensures (m + bit * (2 * k)) / bit % 2 == m / bit % 2
  {
    var r := QuotientRemainder(m, bit);
    var q := Quotient(m, bit);
    assert bit * (q + 2 * k) == bit * q + bit * (2 * k);
    QuotientUnique(m + bit * (2 * k), bit, q + 2 * k, r);
  }

  lemma HighBit(m: nat, n: nat, j: nat)
    requires j > 0 && m / 512 == n / 512
    ensures m / (512 * j) == n / (512 * j)
  {
    QuotientTwice(m, 512, j);
    QuotientTwice(n, 512, j);
    assert Quotient(m, 512 * j) == m / (512 * j) && Quotient(n, 512 * j) == n / (512 * j);
  }

  predicate OtherBit(bit: u32) {
    bit in {M_FAMILY, M_DIRECTION, M_PROTOCOL, M_LOCALADDR, M_REMOTEADDR, M_LOCALPORT, M_REMOTEPORT, M_PID,
            M_LAYER, M_IFINDEX, M_SID, M_TIME}
  }

  lemma AppIdBitAlone(m: nat, bit: u32)
    requires m / APPID_BIT % 2 == 0 && OtherBit(bit)
    ensures m / bit % 2 == (m + APPID_BIT) / bit % 2
  {
    if bit < APPID_BIT {
      var k := if bit == 1 then 128 else if bit == 2 then 64 else if bit == 4 then 32 else if bit == 8 then 16
               else if bit == 16 then 8 else if bit == 32 then 4 else if bit == 64 then 2 else 1;
      assert bit * (2 * k) == APPID_BIT;
      LowBit(m, bit, k);
    } else {
      var j := if bit == 512 then 1 else if bit == 1024 then 2 else if bit == 2048 then 4 else 8;
      HighBit(m, m + APPID_BIT, j);
    }
  }

  lemma OnlyAppIdMoves(mask: u32, bit: u32)
    requires OtherBit(bit)
    ensures SetAppId(mask) / bit % 2 == mask / bit % 2 && ClearAppId(mask) / bit % 2 == mask / bit % 2
  {
    AppIdBitAlone(ClearAppId(mask), bit);
  }

  lemma AppIdBitSet(mask: u32)
    ensures SetAppId(mask) / APPID_BIT % 2 == 1 && ClearAppId(mask) / APPID_BIT % 2 == 0
  {
  }

  /** Normalizing decides the application bit by the path and touches no other known mask bit. */
  lemma NormalizedMask(r: Rule, path: seq<u16>, bit: u32)
    ensures Normalized(r, path).Has(M_APPID) <==> |path| > 0
    ensures OtherBit(bit) ==> (Normalized(r, path).Has(bit) <==> r.Has(bit))
  {
    AppIdBitSet(r.mask);
    if OtherBit(bit) { OnlyAppIdMoves(r.mask, bit); }
  }

  /** A rule that came through the control plane names no application but one with a path. */
  lemma NormalizedIsHashed(r: Rule, path: seq<u16>)
    requires |path| <= PATH_MAX
    ensures Normalized(r, path).Has(M_APPID) ==> Hashed(Normalized(r, path).appId)
  {
    AppIdBitSet(r.mask);
    if |path| > 0 { assert AppId(path) == Normalized(r, path).appId; }
  }

  function Path(w: seq<byte>): seq<u16>
    requires WellFormed(w)
  {
    if PathChars(w) == 0 then [] else PathOf(w[PathOffset(w)..])
  }

  function Converted(w: seq<byte>): Rule
    requires WellFormed(w)
  {
    Normalized(DecodeRule(w[..RULE_BYTES]), Path(w))
  }

  /** The obvious encoder: rule, lengths, path right behind. */
  function EncodeWire(r: Rule, path: seq<u16>): seq<byte>
    requires |path| <= PATH_MAX
  {
    EncodeRule(r) + Bytes(|path|, 4) + Bytes(if |path| == 0 then 0 else WIRE_BYTES, 4) + PathBytes(path)
  }

  lemma FourParts(a: seq<byte>, b: seq<byte>, c: seq<byte>, d: seq<byte>)
    requires |a| == 176 && |b| == |c| == 4
    ensures var w := a + b + c + d;
            w[..176] == a && w[176..180] == b && w[180..184] == c && w[184..] == d
  {
  }

  lemma WireParts(r: Rule, path: seq<u16>)
    requires |path| <= PATH_MAX
    ensures var w := EncodeWire(r, path);
            && |w| == WIRE_BYTES + 2 * |path| && w[..176] == EncodeRule(r) && w[184..] == PathBytes(path)
            && w[176..180] == Bytes(|path|, 4) && w[180..184] == Bytes(if |path| == 0 then 0 else WIRE_BYTES, 4)
  {
    FourParts(EncodeRule(r), Bytes(|path|, 4), Bytes(if |path| == 0 then 0 else WIRE_BYTES, 4), PathBytes(path));
  }

  lemma WireLengths(chars: u32, offset: u32)
    ensures U32(Bytes(chars, 4)) == chars && U32(Bytes(offset, 4)) == offset
  {
    RoundTrip32(chars);
    RoundTrip32(offset);
  }

  lemma WireRoundTrip(r: Rule, path: seq<u16>)
    requires |path| <= PATH_MAX
    ensures WellFormed(EncodeWire(r, path)) && Converted(EncodeWire(r, path)) == Normalized(r, path)
  {
    WireParts(r, path);
    WireLengths(|path|, if |path| == 0 then 0 else WIRE_BYTES);
    var w := EncodeWire(r, path);
    assert PathChars(w) == |path| && PathOffset(w) == (if |path| == 0 then 0 else WIRE_BYTES);
    assert DecodeRule(w[..RULE_BYTES]) == r by { RuleRoundTrip(r); }
    assert Path(w) == path by { PathRoundTrip(path); }
  }

  /** skConvertWire on the validated front of the area. */
  method ConvertWire(w: seq<byte>) returns (r: Rule)
    requires WellFormed(w)
    ensures r == Converted(w)
  {
    r := DecodeRule(w[..RULE_BYTES]);
    if PathChars(w) == 0 {
      r := r.(appId := 0, mask := ClearAppId(r.mask));
    } else {
      PathLength(w[PathOffset(w)..]);
      var id := HashAppPath(PathOf(w[PathOffset(w)..]));
      r := r.(appId := id, mask := SetAppId(r.mask));
    }
  }

  lemma {:induction false} PathLength(b: seq<byte>)
    ensures |PathOf(b)| == |b| / 2
  {
    if |b| >= 2 { PathLength(b[2..]); }
  }

  // ---- the walk ----

  ghost predicate AllWellFormed(ws: seq<seq<byte>>) { forall i :: 0 <= i < |ws| ==> WellFormed(ws[i]) }

  /** Greedy parse of an area into exactly `count` wires. */
  function Parse(area: seq<byte>, count: nat): Option<seq<seq<byte>>> {
    if count == 0 then (if |area| == 0 then Some([]) else None)
    else
      var n := ValidateWire(area);
      if n.None? then None
      else
        FrontFits(area);
        var rest := Parse(area[n.value..], count - 1);
        if rest.None? then None else Some([area[..n.value]] + rest.value)
  }

  lemma FrontFits(area: seq<byte>)
    requires ValidateWire(area).Some?
    ensures ValidateWire(area).value <= |area| && WellFormed(area[..ValidateWire(area).value])
  {
    ValidateFindsTheWire(area, ValidateWire(area).value);
  }

  lemma {:induction false} ParseSound(area: seq<byte>, count: nat)
    requires Parse(area, count).Some?
    ensures var ws := Parse(area, count).value; |ws| == count && AllWellFormed(ws) && Flatten(ws) == area
  {
    if count > 0 {
      FrontFits(area);
      var n := ValidateWire(area).value;
      ParseSound(area[n..], count - 1);
      var rest := Parse(area[n..], count - 1).value;
      var ws := [area[..n]] + rest;
      assert ws[1..] == rest && area == area[..n] + area[n..];
    }
  }

  lemma {:induction false} ParseComplete(ws: seq<seq<byte>>)
    requires AllWellFormed(ws)
    ensures Parse(Flatten(ws), |ws|) == Some(ws)
  {
    if |ws| > 0 {
      var area, n := Flatten(ws), |ws[0]|;
      assert area[..n] == ws[0] && area[n..] == Flatten(ws[1..]);
      ValidateFindsTheWire(area, n);
      ParseComplete(ws[1..]);
      assert ws == [ws[0]] + ws[1..];
    }
  }

  /** The parse finds ws iff the area is those well-formed wires end to end: none missing, none
      left over, and no second way to read the same bytes. */
  lemma ParseIff(area: seq<byte>, count: nat, ws: seq<seq<byte>>)
    ensures Parse(area, count) == Some(ws) <==> |ws| == count && AllWellFormed(ws) && Flatten(ws) == area
  {
    if Parse(area, count).Some? { ParseSound(area, count); }
    if AllWellFormed(ws) { ParseComplete(ws); }
  }

  /** A parse so far, continued. */
  function Prepend(done: seq<seq<byte>>, rest: Option<seq<seq<byte>>>): Option<seq<seq<byte>>> {
    if rest.None? then None else Some(done + rest.value)
  }

  lemma PrependNothing(rest: Option<seq<seq<byte>>>)
    ensures Prepend([], rest) == rest
  {
    if rest.Some? { assert [] + rest.value == rest.value; }
  }

  ghost function ConvertedAll(ws: seq<seq<byte>>): seq<Rule>
    requires AllWellFormed(ws)
  {
    seq(|ws|, i requires 0 <= i < |ws| => Converted(ws[i]))
  }

  lemma ConvertedAppend(ws: seq<seq<byte>>, w: seq<byte>)
    requires AllWellFormed(ws) && WellFormed(w)
    ensures AllWellFormed(ws + [w]) && ConvertedAll(ws + [w]) == ConvertedAll(ws) + [Converted(w)]
  {
  }

  /** One turn of the walk: a wire moves from the area to the parsed ones, or the walk fails. */
  lemma WalkStep(done: seq<seq<byte>>, area: seq<byte>, count: nat)
    requires count > 0
    ensures ValidateWire(area).None? ==> Parse(area, count).None?
    ensures ValidateWire(area).Some? ==>
      var n := ValidateWire(area).value;
      && n <= |area| && WellFormed(area[..n])
      && Prepend(done, Parse(area, count)) == Prepend(done + [area[..n]], Parse(area[n..], count - 1))
  {
    if ValidateWire(area).Some? {
      FrontFits(area);
      var n := ValidateWire(area).value;
      var rest := Parse(area[n..], count - 1);
      if rest.Some? { Regroup(done, [area[..n]], rest.value); }
    }
  }

  lemma WalkEnd(done: seq<seq<byte>>, area: seq<byte>)
    ensures Prepend(done, Parse(area, 0)) == if |area| == 0 then Some(done) else None
  {
    assert done + [] == done;
  }

  /** The cursor loop of skCmdReplaceRuleset: one rule slot filled a wire. The cursor and the count
      of remaining bytes are the slice `rest`. */
  method Walk(area: seq<byte>, rules: array<Rule>) returns (ok: bool, ghost wires: seq<seq<byte>>)
    modifies rules
    ensures ok <==> Parse(area, rules.Length).Some?
    ensures ok ==>
      Parse(area, rules.Length) == Some(wires) && AllWellFormed(wires) && rules[..] == ConvertedAll(wires)
  {
    var rest := area;
    wires := [];
    PrependNothing(Parse(area, rules.Length));
    var i := 0;
    while i < rules.Length
      invariant 0 <= i <= rules.Length
      invariant AllWellFormed(wires) && rules[..i] == ConvertedAll(wires)
      invariant Parse(area, rules.Length) == Prepend(wires, Parse(rest, rules.Length - i))
    {
      var wireBytes := ValidateWire(rest);
      WalkStep(wires, rest, rules.Length - i);
      if wireBytes.None? {
        ok := false;
        return;
      }
      var n := wireBytes.value;
      ConvertedAppend(wires, rest[..n]);
      rules[i] := ConvertWire(rest[..n]);
      wires, rest := wires + [rest[..n]], rest[n..];
      i := i + 1;
    }
    ok := |rest| == 0;
    WalkEnd(wires, rest);
    assert rules[..i] == rules[..];
  }

  // ---- the REPLACE and ADD/UPDATE commands ----

  datatype Request = Refused(status: Status) | Replace(rules: seq<Rule>, expected: u64)

  /** What a REPLACE payload asks the store to do; `pool` answers the temporary rule array. */
  ghost function Requested(payload: seq<byte>, pool: bool): Request {
    if |payload| < HEADER_BYTES then Refused(InvalidParameter)
    else
      var count, bytes := U32(payload[..4]), U32(payload[4..8]);
      if count > RULE_MAX || bytes > REPLACE_MAX_BYTES || HEADER_BYTES + bytes != |payload| then
        Refused(InvalidParameter)
      else if count * WIRE_BYTES > bytes then Refused(InvalidParameter)
      else if count != 0 && !pool then Refused(InsufficientResources)
      else
        var ws := Parse(payload[HEADER_BYTES..], count);
        if ws.None? then Refused(InvalidParameter)
        else
          ParseSound(payload[HEADER_BYTES..], count);
          Replace(ConvertedAll(ws.value), U64(payload[8..16]))
  }

  /** A payload that reaches the store: the header's words at the offsets its declaration gives them,
      as many rules as it counts, as many bytes behind it as it says. */
  lemma HeaderSays(payload: seq<byte>, pool: bool)
    requires Requested(payload, pool).Replace?
    ensures var ms := [Member(4, 4), Member(4, 4), Member(8, 8)];
      && OffsetOf(ms, 0) == 0 && OffsetOf(ms, 1) == 4 && OffsetOf(ms, 2) == 8 && Aligned(End(ms), 8) == HEADER_BYTES
    ensures var q := Requested(payload, pool);
      && |payload| >= 16
      && |q.rules| == Long32(payload, 0) <= 4096
      && |payload| == 16 + Long32(payload, 4) <= 16 + 0x10_0000
      && q.expected == Long64(payload, 8)
  {
    ThreeOffsets(Member(4, 4), Member(4, 4), Member(8, 8));
    assert payload[..4] == payload[0..4];
    U32Is(payload, 0);
    U32Is(payload, 4);
    U64Is(payload, 8);
    ParseSound(payload[HEADER_BYTES..], U32(payload[..4]));
  }

  /** A payload laid out as the protocol says. */
  function ReplacePayload(ws: seq<seq<byte>>, expected: u64): seq<byte>
    requires |ws| <= RULE_MAX && |Flatten(ws)| <= REPLACE_MAX_BYTES
  {
    Bytes(|ws|, 4) + Bytes(|Flatten(ws)|, 4) + Bytes(expected, 8) + Flatten(ws)
  }

  lemma {:induction false} FlattenLength(ws: seq<seq<byte>>)
    requires AllWellFormed(ws)
    ensures |Flatten(ws)| >= WIRE_BYTES * |ws|
  {
    if |ws| > 0 {
      assert AllWellFormed(ws[1..]);
      FlattenLength(ws[1..]);
    }
  }

  /** A payload is accepted for what its wires say; the early size test refuses none of these. */
  lemma PayloadAccepted(ws: seq<seq<byte>>, expected: u64)
    requires AllWellFormed(ws) && |ws| <= RULE_MAX && |Flatten(ws)| <= REPLACE_MAX_BYTES
    ensures Requested(ReplacePayload(ws, expected), true) == Replace(ConvertedAll(ws), expected)
  {
    var p := ReplacePayload(ws, expected);
    assert p[..4] == Bytes(|ws|, 4) && p[4..8] == Bytes(|Flatten(ws)|, 4);
    assert p[8..16] == Bytes(expected, 8) && p[16..] == Flatten(ws);
    RoundTrip32(|ws|);
    RoundTrip32(|Flatten(ws)|);
    RoundTrip64(expected);
    FlattenLength(ws);
    ParseComplete(ws);
  }

  lemma HeaderBytes(payload: seq<byte>)
    requires |payload| >= HEADER_BYTES
    ensures payload == Bytes(U32(payload[..4]), 4) + Bytes(U32(payload[4..8]), 4) + Bytes(U64(payload[8..16]), 8)
                       + payload[HEADER_BYTES..]
  {
    BytesOfNum(payload[..4]);
    BytesOfNum(payload[4..8]);
    BytesOfNum(payload[8..16]);
    HeaderParts(payload);
  }

  lemma HeaderParts(payload: seq<byte>)
    requires |payload| >= HEADER_BYTES
    ensures payload == payload[..4] + payload[4..8] + payload[8..16] + payload[16..]
  {
  }

  /** And no other payload is: one that reaches the store is a header and `count` whole wires. */
  lemma OnlyPayloadsAccepted(payload: seq<byte>) returns (ws: seq<seq<byte>>, expected: u64)
    requires Requested(payload, true).Replace?
    ensures AllWellFormed(ws) && |ws| <= RULE_MAX && |Flatten(ws)| <= REPLACE_MAX_BYTES
    ensures payload == ReplacePayload(ws, expected)
    ensures Requested(payload, true) == Replace(ConvertedAll(ws), expected)
  {
    var count := U32(payload[..4]);
    var area := payload[HEADER_BYTES..];
    ParseSound(area, count);
    ws, expected := Parse(area, count).value, U64(payload[8..16]);
    assert U32(payload[4..8]) == |Flatten(ws)|;
    HeaderBytes(payload);
  }

  ghost predicate Sendable(rules: seq<(Rule, seq<u16>)>) { forall i :: 0 <= i < |rules| ==> |rules[i].1| <= PATH_MAX }

  ghost function EncodeAll(rules: seq<(Rule, seq<u16>)>): seq<seq<byte>>
    requires Sendable(rules)
  {
    seq(|rules|, i requires 0 <= i < |rules| => EncodeWire(rules[i].0, rules[i].1))
  }

  ghost function NormalizedAll(rules: seq<(Rule, seq<u16>)>): seq<Rule> {
    seq(|rules|, i requires 0 <= i < |rules| => Normalized(rules[i].0, rules[i].1))
  }

  lemma EncodedConvert(rules: seq<(Rule, seq<u16>)>)
    requires Sendable(rules)
    ensures AllWellFormed(EncodeAll(rules)) && ConvertedAll(EncodeAll(rules)) == NormalizedAll(rules)
  {
    var ws := EncodeAll(rules);
    forall i | 0 <= i < |ws| ensures WellFormed(ws[i]) && Converted(ws[i]) == NormalizedAll(rules)[i] {
      WireRoundTrip(rules[i].0, rules[i].1);
    }
  }

  /** Sending rules with their paths delivers exactly those rules, normalized, in order. */
  lemma ReplaceRoundTrip(rules: seq<(Rule, seq<u16>)>, expected: u64)
    requires |rules| <= RULE_MAX && Sendable(rules) && |Flatten(EncodeAll(rules))| <= REPLACE_MAX_BYTES
    ensures Requested(ReplacePayload(EncodeAll(rules), expected), true) == Replace(NormalizedAll(rules), expected)
  {
    EncodedConvert(rules);
    PayloadAccepted(EncodeAll(rules), expected);
  }

  /** skCmdReplaceRuleset up to its call of the store: everything is parsed first. */
  method ReadRules(payload: seq<byte>, pool: bool) returns (q: Request)
    ensures q == Requested(payload, pool)
  {
    if |payload| < HEADER_BYTES {
      return Refused(InvalidParameter);
    }
    var count, rulesBytes := U32(payload[..4]), U32(payload[4..8]);
    if count > RULE_MAX || rulesBytes > REPLACE_MAX_BYTES || HEADER_BYTES + rulesBytes != |payload| {
      return Refused(InvalidParameter);
    }
    if count != 0 {
      if count * WIRE_BYTES > rulesBytes {
        return Refused(InvalidParameter);
      }
      if !pool {
        return Refused(InsufficientResources);
      }
    }
    var rules := new Rule[count];
    var ok, wires := Walk(payload[HEADER_BYTES..], rules);
    if !ok {
      return Refused(InvalidParameter);
    }
    q := Replace(rules[..], U64(payload[8..16]));
  }

  /** skCmdReplaceRuleset. Nothing reaches the store unless the whole area parses. */
  method ReplaceRuleset(payload: seq<byte>, pool: bool, store: Store, env: Env) returns (st: Status)
    requires store.Valid()
    modifies store`current, store`slot, store.engine.table.slots
    ensures store.Valid()
    ensures var q := Requested(payload, pool);
      && st == (if q.Refused? then q.status else ReplaceStatus(old(store.View()), q.rules, q.expected, env))
      && (q.Refused? || st != Success ==>
            store.View() == old(store.View()) && store.Buckets() == old(store.Buckets()))
      && (q.Replace? && st == Success ==>
            && UniqueIds(q.rules)
            && Publishes(old(store.View()), store.View(), RuleMap(q.rules), old(PolicyOf(store.View())))
            && store.Buckets() == old(store.Buckets()) - (old(IdsOf(store.View())) - Ids(q.rules)))
  {
    var q := ReadRules(payload, pool);
    if q.Refused? {
      return q.status;
    }
    st := store.Replace(q.rules, q.expected, env);
  }

  /** skCmdAddOrUpdateRule: the payload must be exactly one wire. */
  method AddOrUpdate(payload: seq<byte>, isUpdate: bool, store: Store, env: Env) returns (st: Status)
    requires store.Valid()
    modifies store`current, store`slot, store.engine.table.slots
    ensures store.Valid()
    ensures st == if !WellFormed(payload) then InvalidParameter
                  else if isUpdate then UpdateStatus(old(store.View()), Converted(payload), env)
                  else AddStatus(old(store.View()), Converted(payload), env)
    ensures st != Success ==> store.View() == old(store.View()) && store.Buckets() == old(store.Buckets())
    ensures st == Success ==>
      WellFormed(payload) && var r := Converted(payload);
      Publishes(old(store.View()), store.View(), old(MapOf(store.View()))[r.ruleId := r], old(PolicyOf(store.View())))
  {
    var wireBytes := ValidateWire(payload);
    ValidateFindsTheWire(payload, |payload|);
    assert payload[..|payload|] == payload;
    if wireBytes.None? || wireBytes.value != |payload| {
      return InvalidParameter;
    }
    var rule := ConvertWire(payload);
    if isUpdate {
      st := store.Update(rule, env);
    } else {
      st := store.Add(rule, env);
    }
  }
}
