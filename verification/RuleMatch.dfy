/** Rule validation, the matcher, and which accepted rules can ever fire. */
module RuleMatch {
  import opened RuleTypes
  import opened AddrMatch

  /** SkRuleMatch: every field present in the mask must match; a disabled rule never does. */
  predicate Matches(r: Rule, t: Tuple) {
    && r.enabled != 0
    && (r.Has(M_FAMILY) ==> r.family == t.family)
    && (r.Has(M_DIRECTION) && r.direction != DIR_ANY ==> r.direction == t.direction)
    && (r.Has(M_PROTOCOL) && r.protocol != PROTO_ANY ==> r.protocol == t.protocol)
    && (r.Has(M_LAYER) ==> r.layerId == t.layerId)
    && (r.Has(M_IFINDEX) && r.ifIndex != 0 ==> r.ifIndex == t.ifIndex)
    && (r.Has(M_PID) && r.processId != 0 ==> r.processId == t.processId)
    && (r.Has(M_APPID) && r.appId != 0 ==> r.appId == t.appId)
    && (r.Has(M_LOCALPORT) ==> r.localPortMin <= t.localPort <= r.localPortMax)
    && (r.Has(M_REMOTEPORT) ==> r.remotePortMin <= t.remotePort <= r.remotePortMax)
    && (r.Has(M_LOCALADDR) ==> PrefixMatch(t.localAddr, r.localAddr, r.localPrefix, t.family))
    && (r.Has(M_REMOTEADDR) ==> PrefixMatch(t.remoteAddr, r.remoteAddr, r.remotePrefix, t.family))
    && (r.Has(M_SID) ==> SidMatches(r, t))
    && (r.Has(M_TIME) && (r.notBefore != 0 || r.notAfter != 0) ==> r.notBefore <= t.nowUtc <= r.notAfter)
  }

  predicate SidMatches(r: Rule, t: Tuple) {
    && t.userId.Some?
    && 0 < r.sidLength <= 32
    && |t.userId.value| == r.sidLength
    && r.sid[..r.sidLength] == t.userId.value
  }

  // ---- each field of a tuple is decided by its own condition, and by nothing else ----

  // In a matching tuple a field can be exchanged for exactly the values its own condition allows: any
  // at all without the mask bit, or with the wildcard value.

  lemma DirectionDecides(r: Rule, t: Tuple, x: u32)
    requires Matches(r, t)
    ensures Matches(r, t.(direction := x)) <==> (r.mask / 0x2 % 2 == 1 && r.direction != 0 ==> x == r.direction)
  {
  }

  lemma ProtocolDecides(r: Rule, t: Tuple, x: u32)
    requires Matches(r, t)
    ensures Matches(r, t.(protocol := x)) <==> (r.mask / 0x4 % 2 == 1 && r.protocol != 0 ==> x == r.protocol)
  {
  }

  lemma LayerDecides(r: Rule, t: Tuple, x: u32)
    requires Matches(r, t)
    ensures Matches(r, t.(layerId := x)) <==> (r.mask / 0x200 % 2 == 1 ==> x == r.layerId)
  {
  }

  lemma InterfaceDecides(r: Rule, t: Tuple, x: u32)
    requires Matches(r, t)
    ensures Matches(r, t.(ifIndex := x)) <==> (r.mask / 0x400 % 2 == 1 && r.ifIndex != 0 ==> x == r.ifIndex)
  {
  }

  lemma ProcessDecides(r: Rule, t: Tuple, x: u32)
    requires Matches(r, t)
    ensures Matches(r, t.(processId := x)) <==> (r.mask / 0x80 % 2 == 1 && r.processId != 0 ==> x == r.processId)
  {
  }

  lemma LocalPortDecides(r: Rule, t: Tuple, x: u32)
    requires Matches(r, t)
    ensures Matches(r, t.(localPort := x)) <==> (r.mask / 0x20 % 2 == 1 ==> r.localPortMin <= x <= r.localPortMax)
  {
  }

  lemma RemotePortDecides(r: Rule, t: Tuple, x: u32)
    requires Matches(r, t)
    ensures Matches(r, t.(remotePort := x)) <==> (r.mask / 0x40 % 2 == 1 ==> r.remotePortMin <= x <= r.remotePortMax)
  {
  }

  lemma AppDecides(r: Rule, t: Tuple, x: u64)
    requires Matches(r, t)
    ensures Matches(r, t.(appId := x)) <==> (r.mask / 0x100 % 2 == 1 && r.appId != 0 ==> x == r.appId)
  {
  }

  lemma ClockDecides(r: Rule, t: Tuple, x: u64)
    requires Matches(r, t)
    ensures Matches(r, t.(nowUtc := x)) <==>
      (r.mask / 0x1000 % 2 == 1 && !(r.notBefore == 0 && r.notAfter == 0) ==> r.notBefore <= x <= r.notAfter)
  {
  }

  lemma UserDecides(r: Rule, t: Tuple, x: Option<seq<byte>>)
    requires Matches(r, t)
    ensures Matches(r, t.(userId := x)) <==>
      (r.mask / 0x800 % 2 == 1 ==> x.Some? && 0 < r.sidLength <= 32 && x.value == r.sid[..r.sidLength])
  {
  }

  lemma LocalAddrDecides(r: Rule, t: Tuple, x: Address)
    requires Matches(r, t)
    ensures Matches(r, t.(localAddr := x)) <==>
      (r.mask / 0x8 % 2 == 1 ==> PrefixMatch(x, r.localAddr, r.localPrefix, t.family))
  {
  }

  lemma RemoteAddrDecides(r: Rule, t: Tuple, x: Address)
    requires Matches(r, t)
    ensures Matches(r, t.(remoteAddr := x)) <==>
      (r.mask / 0x10 % 2 == 1 ==> PrefixMatch(x, r.remoteAddr, r.remotePrefix, t.family))
  {
  }

  /** The family is decided by its own condition unless an address is compared at its width; a
      disabled rule matches nothing. */
  lemma FamilyDecides(r: Rule, t: Tuple, x: u32)
    ensures Matches(r, t) ==> r.enabled != 0
    ensures Matches(r, t) && r.mask / 0x8 % 2 == 0 && r.mask / 0x10 % 2 == 0 ==>
      (Matches(r, t.(family := x)) <==> (r.mask % 2 == 1 ==> x == r.family))
    ensures Matches(r, t) && (r.mask / 0x8 % 2 == 1 || r.mask / 0x10 % 2 == 1) ==> t.family == 2 || t.family == 23
  {
    assert r.mask / 1 == r.mask;
  }

  function PrefixLimit(r: Rule): nat {
    if r.Has(M_FAMILY) && r.family == AF_INET then 32 else 128
  }

  /** SkRuleValidate, branch by branch. */
  function Validate(r: Rule): Status {
    if r.ruleId == 0 then InvalidParameter
    else if r.mask >= M_LIMIT then InvalidParameter
    else if r.Has(M_IFINDEX) || r.Has(M_SID) then InvalidParameter
    else if r.enabled > 1 then InvalidParameter
    else if r.action > ACTION_RATE_LIMIT then InvalidParameter
    else if r.action == ACTION_RATE_LIMIT && (r.rateTokens == 0 || r.rateIntervalMs == 0 || r.burst == 0) then
      InvalidParameter
    else if r.sidLength != 0 && (r.sidLength < 8 || r.sidLength > 32) then InvalidParameter
    else if r.Has(M_FAMILY) && r.family != AF_INET && r.family != AF_INET6 then InvalidParameter
    else if r.Has(M_DIRECTION) && r.direction > DIR_IN then InvalidParameter
    else if r.Has(M_LAYER) && r.layerId >= LAYER_COUNT then InvalidParameter
    else if r.Has(M_PROTOCOL) && r.protocol > 255 then InvalidParameter
    else if r.Has(M_LOCALADDR) && r.localPrefix > PrefixLimit(r) then InvalidParameter
    else if r.Has(M_REMOTEADDR) && r.remotePrefix > PrefixLimit(r) then InvalidParameter
    else if r.Has(M_LOCALPORT) && (r.localPortMin > r.localPortMax || r.localPortMax > 65535) then InvalidParameter
    else if r.Has(M_REMOTEPORT) && (r.remotePortMin > r.remotePortMax || r.remotePortMax > 65535) then
      InvalidParameter
    else if r.Has(M_TIME) && r.notBefore > r.notAfter then InvalidParameter
    else Success
  }

  predicate Accepted(r: Rule) { Validate(r) == Success }

  /** The prefix fits an address of some family the rule can meet. */
  predicate PrefixFits(r: Rule, prefix: nat) {
    || (prefix <= 32 && (r.mask % 2 == 1 ==> r.family == 2 || r.family == 23))
    || (prefix <= 128 && (r.mask % 2 == 1 ==> r.family == 23))
  }

  predicate InWindow(r: Rule, now: u64) { r.notBefore <= now <= r.notAfter }

  /** Validation accepts exactly the rules with an id, known and supported conditions, values in range,
      usable token parameters, and conditions that are not empty: each names a value that exists. */
  lemma AcceptedIff(r: Rule)
    ensures Accepted(r) <==>
      && r.ruleId > 0 && r.enabled <= 1 && r.action <= 3
      && (r.action == 3 ==> r.rateTokens > 0 && r.rateIntervalMs > 0 && r.burst > 0)
      && (r.sidLength == 0 || 8 <= r.sidLength <= 32)
      && r.mask < 0x2000 && r.mask / 0x400 % 2 == 0 && r.mask / 0x800 % 2 == 0
      && (r.mask % 2 == 1 ==> r.family == 2 || r.family == 23)
      && (r.mask / 0x2 % 2 == 1 ==> r.direction <= 2)
      && (r.mask / 0x4 % 2 == 1 ==> r.protocol <= 255)
      && (r.mask / 0x200 % 2 == 1 ==> r.layerId <= 5)
      && (r.mask / 0x8 % 2 == 1 ==> PrefixFits(r, r.localPrefix))
      && (r.mask / 0x10 % 2 == 1 ==> PrefixFits(r, r.remotePrefix))
      && (r.mask / 0x20 % 2 == 1 ==> r.localPortMin <= r.localPortMax < 0x1_0000)
      && (r.mask / 0x40 % 2 == 1 ==> r.remotePortMin <= r.remotePortMax < 0x1_0000)
      && (r.mask / 0x1000 % 2 == 1 ==> exists now: u64 :: InWindow(r, now))
  {
    assert r.mask / 1 == r.mask;
    if r.notBefore <= r.notAfter { assert InWindow(r, r.notBefore); }
  }

  // ---- every accepted enabled rule is satisfiable by some tuple ----

  /** A tuple chosen from the rule's own fields, at a given family, direction and layer, at the first
      clock reading from `since` on that the rule's window allows. */
  function TupleFor(r: Rule, family: u32, direction: u32, layerId: u32, since: u64): Tuple {
    Tuple(family, direction, if r.protocol > 255 then 0 else r.protocol, layerId, 0, r.processId,
          if r.Has(M_APPID) then r.appId else 0,
          if r.Has(M_LOCALPORT) then r.localPortMin else 0,
          if r.Has(M_REMOTEPORT) then r.remotePortMin else 0,
          Cut(r.localAddr, family), Cut(r.remoteAddr, family), None,
          if r.notBefore < since then since else r.notBefore)
  }

  /** The address as the data plane stores it: a v4 address fills the first 4 bytes only. */
  function Cut(a: Address, family: u32): Address {
    if family == AF_INET then a[..4] + seq(12, _ => 0) else a
  }

  lemma CutMatches(a: Address, prefix: nat, family: u32)
    requires Width(family) != 0 && prefix <= 8 * Width(family)
    ensures PrefixMatch(Cut(a, family), a, prefix, family)
  {
    assert Cut(a, family)[..Width(family)] == a[..Width(family)];
  }

  /** The rule's validity window, if it has one, is not over at `since`. */
  predicate NotOver(r: Rule, since: u64) {
    r.Has(M_TIME) && (r.notBefore != 0 || r.notAfter != 0) ==> since <= r.notAfter
  }

  lemma TupleForMatches(r: Rule, family: u32, direction: u32, layerId: u32, since: u64)
    requires Accepted(r) && r.enabled == 1
    requires Width(family) != 0 && (r.Has(M_FAMILY) ==> r.family == family)
    requires r.Has(M_DIRECTION) && r.direction != DIR_ANY ==> r.direction == direction
    requires r.Has(M_LAYER) ==> r.layerId == layerId
    requires r.Has(M_LOCALADDR) ==> r.localPrefix <= 8 * Width(family)
    requires r.Has(M_REMOTEADDR) ==> r.remotePrefix <= 8 * Width(family)
    requires NotOver(r, since)
    ensures Matches(r, TupleFor(r, family, direction, layerId, since))
  {
    if r.Has(M_LOCALADDR) {
      CutMatches(r.localAddr, r.localPrefix, family);
    }
    if r.Has(M_REMOTEADDR) {
      CutMatches(r.remoteAddr, r.remotePrefix, family);
    }
  }

  /** Validation rejects exactly enough for the matcher: no accepted enabled rule is unsatisfiable. */
  lemma AcceptedIsSatisfiable(r: Rule) returns (t: Tuple)
    requires Accepted(r) && r.enabled == 1
    ensures Matches(r, t)
  {
    var family := if r.Has(M_FAMILY) then r.family else AF_INET6;
    t := TupleFor(r, family, r.direction, r.layerId, 0);
    TupleForMatches(r, family, r.direction, r.layerId, 0);
  }

  // ---- which accepted rules the data plane can fire ----

  // Layers that evaluate rules: 0/1 connect v4/v6, 2/3 receive-accept v4/v6.
  const EVALUATED_LAYERS: u32 := 4

  function LayerFamily(layerId: u32): u32 {
    if layerId == 0 || layerId == 2 || layerId == 4 then AF_INET else AF_INET6
  }

  function LayerDirection(layerId: u32): u32 {
    if layerId == 0 || layerId == 1 then DIR_OUT
    else if layerId == 2 || layerId == 3 then DIR_IN
    else DIR_ANY
  }

  /** Connect layers are outbound, receive-accept layers inbound; each comes as v4 and v6. */
  lemma LayersAre()
    ensures LayerFamily(0) == LayerFamily(2) == 2 && LayerFamily(1) == LayerFamily(3) == 23
    ensures LayerDirection(0) == LayerDirection(1) == 1 && LayerDirection(2) == LayerDirection(3) == 2
  {
  }

  /** An id the path hash can produce; a path blob has a 32-bit byte length. */
  ghost predicate Hashed(appId: u64) {
    exists path: seq<u16> :: 0 < |path| < 0x8000_0000 && AppId(path) == appId
  }

  /** The tuples SkClassifyBuildTuple can hand to the matcher on a layer that evaluates rules, while
      the system clock reads `since` or later. */
  ghost predicate DataPlaneTuple(t: Tuple, since: u64) {
    && t.layerId < EVALUATED_LAYERS
    && t.family == LayerFamily(t.layerId)
    && t.direction == LayerDirection(t.layerId)
    && t.protocol <= 255 && t.localPort <= 65535 && t.remotePort <= 65535
    && t.ifIndex == 0 && t.userId.None?
    && t.localAddr == Cut(t.localAddr, t.family) && t.remoteAddr == Cut(t.remoteAddr, t.family)
    && (t.appId == 0 || Hashed(t.appId))
    && since <= t.nowUtc
  }

  /** The rule's family, direction, layer and prefixes are all compatible with one layer. */
  predicate FitsLayer(r: Rule, layerId: u32) {
    && (r.Has(M_FAMILY) ==> r.family == LayerFamily(layerId))
    && (r.Has(M_DIRECTION) && r.direction != DIR_ANY ==> r.direction == LayerDirection(layerId))
    && (r.Has(M_LAYER) ==> r.layerId == layerId)
    && (r.Has(M_LOCALADDR) ==> r.localPrefix <= 8 * Width(LayerFamily(layerId)))
    && (r.Has(M_REMOTEADDR) ==> r.remotePrefix <= 8 * Width(LayerFamily(layerId)))
  }

  /** Some evaluated layer fits, the application id is a path's, and the window is not over. */
  ghost predicate CanFire(r: Rule, since: u64) {
    && (exists layerId: u32 | layerId < EVALUATED_LAYERS :: FitsLayer(r, layerId))
    && (r.Has(M_APPID) && r.appId != 0 ==> Hashed(r.appId))
    && NotOver(r, since)
  }

  /** An accepted enabled rule fires on some data-plane tuple from a clock reading on iff it can. */
  lemma FiresIffSomeLayerFits(r: Rule, since: u64)
    requires Accepted(r) && r.enabled == 1
    ensures (exists t :: DataPlaneTuple(t, since) && Matches(r, t)) <==> CanFire(r, since)
  {
    if CanFire(r, since) {
      var layerId: u32 :| layerId < EVALUATED_LAYERS && FitsLayer(r, layerId);
      var family := LayerFamily(layerId);
      var t := TupleFor(r, family, LayerDirection(layerId), layerId, since);
      TupleForMatches(r, family, LayerDirection(layerId), layerId, since);
      assert DataPlaneTuple(t, since);
    }
    if t :| DataPlaneTuple(t, since) && Matches(r, t) {
      assert FitsLayer(r, t.layerId);
    }
  }

  /** Validation does not enforce that condition: this accepted rule can never fire. */
  lemma AcceptedButDead() returns (r: Rule)
    ensures Accepted(r) && r.enabled == 1
    ensures forall t, since :: DataPlaneTuple(t, since) ==> !Matches(r, t)
  {
    var zero: Address := seq(16, _ => 0);
    r := Rule(1, 0, M_FAMILY + M_LAYER, ACTION_BLOCK, 1, AF_INET6, 0, 0, 0, 0, 0, 0, 0, 0, 0, 0, 0, 0,
              zero, zero, 0, 0, seq(32, _ => 0), 0, 0, 0, 0);
    assert r.Has(M_FAMILY) && r.Has(M_LAYER);
    forall t, since | DataPlaneTuple(t, since) ensures !Matches(r, t) {
      assert !CanFire(r, since);
      FiresIffSomeLayerFits(r, since);
    }
  }

  // ---- application path hash ----

  const FNV_OFFSET: bv64 := 14695981039346656037
  const FNV_PRIME: bv64 := 1099511628211

  function Lower(c: u16): u16 {
    if 'A' as nat <= c <= 'Z' as nat then c + ('a' as nat - 'A' as nat) else c
  }

  function Lowered(path: seq<u16>): seq<u16> {
    seq(|path|, i requires 0 <= i < |path| => Lower(path[i]))
  }

  function Unit(c: u16): bv64 { c as bv64 }

  function Mix(h: bv64, unit: bv64): bv64 { (h ^ unit) * FNV_PRIME }

  function HashStep(h: bv64, c: u16): bv64 { Mix(h, Unit(c)) }

  function Fnv1a(s: seq<u16>): bv64 {
    if |s| == 0 then FNV_OFFSET else HashStep(Fnv1a(s[..|s| - 1]), s[|s| - 1])
  }

  /** The application id of a path; an empty path has id 0, the wildcard. */
  function AppId(path: seq<u16>): u64 {
    if |path| == 0 then 0 else Fnv1a(Lowered(path)) as nat
  }

  /** SkRuleHashAppPath: one pass over the path, folding ASCII case as it goes. */
  method HashAppPath(path: seq<u16>) returns (id: u64)
    ensures id == AppId(path)
  {
    if |path| == 0 {
      return 0;
    }
    var h := FNV_OFFSET;
    var i := 0;
    while i < |path|
      invariant i <= |path|
      invariant h == Fnv1a(Lowered(path)[..i])
    {
      var c := Lower(path[i]);
      assert Lowered(path)[..i + 1][..i] == Lowered(path)[..i];
      assert Lowered(path)[..i + 1][i] == c;
      h := HashStep(h, c);
      i := i + 1;
    }
    assert Lowered(path)[..i] == Lowered(path);
    id := h as nat;
  }

  /** ASCII upper case and nothing else is folded. */
  lemma LowerIs(c: u16)
    ensures Lower(c) == if 65 <= c <= 90 then c + 32 else c
  {
  }

  lemma Units()
    ensures Unit(0x61) == 0x61 && Unit(0x62) == 0x62 && Unit(0x66) == 0x66 && Unit(0x6f) == 0x6f && Unit(0x72) == 0x72
  {
  }

  lemma Mixes()
    ensures Mix(FNV_OFFSET, 0x61) == 0xaf63dc4c8601ec8c
    ensures Mix(FNV_OFFSET, 0x66) == 0xaf63db4c8601ead9
    ensures Mix(0xaf63db4c8601ead9, 0x6f) == 0x8985907b541d342
    ensures Mix(0x8985907b541d342, 0x6f) == 0xdcb27518fed9d577
    ensures Mix(0xdcb27518fed9d577, 0x62) == 0xdd120e790c2512af
    ensures Mix(0xdd120e790c2512af, 0x61) == 0xcac165afa2fef40a
    ensures Mix(0xcac165afa2fef40a, 0x72) == 0x85944171f73967e8
  {
  }

  lemma Extend(s: seq<u16>, c: u16, d: bv64, k: bv64)
    requires Unit(c) == d && Mix(Fnv1a(s), d) == k
    ensures Fnv1a(s + [c]) == k
  {
    assert (s + [c])[..|s|] == s;
  }

  lemma FnvOfFoobar()
    ensures Fnv1a([0x66, 0x6f, 0x6f, 0x62, 0x61, 0x72]) == 0x85944171f73967e8
  {
    Units();
    Mixes();
    assert [] + [0x66] == [0x66] && [0x66] + [0x6f] == [0x66, 0x6f];
    assert [0x66, 0x6f] + [0x6f] == [0x66, 0x6f, 0x6f];
    assert [0x66, 0x6f, 0x6f] + [0x62] == [0x66, 0x6f, 0x6f, 0x62];
    assert [0x66, 0x6f, 0x6f, 0x62] + [0x61] == [0x66, 0x6f, 0x6f, 0x62, 0x61];
    assert [0x66, 0x6f, 0x6f, 0x62, 0x61] + [0x72] == [0x66, 0x6f, 0x6f, 0x62, 0x61, 0x72];
    Extend([], 0x66, 0x66, 0xaf63db4c8601ead9);
    Extend([0x66], 0x6f, 0x6f, 0x8985907b541d342);
    Extend([0x66, 0x6f], 0x6f, 0x6f, 0xdcb27518fed9d577);
    Extend([0x66, 0x6f, 0x6f], 0x62, 0x62, 0xdd120e790c2512af);
    Extend([0x66, 0x6f, 0x6f, 0x62], 0x61, 0x61, 0xcac165afa2fef40a);
    Extend([0x66, 0x6f, 0x6f, 0x62, 0x61], 0x72, 0x72, 0x85944171f73967e8);
  }

  lemma FnvOfA()
    ensures Fnv1a([0x61]) == 0xaf63dc4c8601ec8c
  {
    Units();
    Mixes();
    Extend([], 0x61, 0x61, 0xaf63dc4c8601ec8c);
    assert [] + [0x61] == [0x61];
  }

  /** The published test vectors of 64-bit FNV-1a, for "a" and for "foobar"; upper case is folded. */
  lemma HashVectors()
    ensures AppId([0x41]) == AppId([0x61]) == 0xaf63dc4c8601ec8c
    ensures AppId([0x46, 0x6f, 0x4f, 0x62, 0x61, 0x72]) == 0x85944171f73967e8
  {
    assert Lowered([0x41]) == [0x61] == Lowered([0x61]);
    assert Lowered([0x46, 0x6f, 0x4f, 0x62, 0x61, 0x72]) == [0x66, 0x6f, 0x6f, 0x62, 0x61, 0x72];
    FnvOfA();
    FnvOfFoobar();
    assert (0xaf63dc4c8601ec8c as bv64) as nat == 0xaf63dc4c8601ec8c;
    assert (0x85944171f73967e8 as bv64) as nat == 0x85944171f73967e8;
  }

  /** Control side and data plane agree on a path whatever its ASCII case. */
  lemma HashIgnoresCase(p: seq<u16>, q: seq<u16>)
    requires |p| == |q|
    requires forall i :: 0 <= i < |p| ==> Lower(p[i]) == Lower(q[i])
    ensures AppId(p) == AppId(q)
  {
    assert Lowered(p) == Lowered(q);
  }
}
