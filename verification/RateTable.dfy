/** RATE_LIMIT token buckets: the 64-slot table and the arithmetic of one bucket. */
module RateTable {
  import opened Arithmetic
  import opened RuleTypes
  import opened RuleMatch

  const SLOTS: nat := 64

  datatype Bucket = Bucket(tokens: u64, lastRefill: u64)
  datatype Slot = Slot(inUse: bool, ruleId: u64, bucket: Bucket)

  type Buckets = map<u64, Bucket>

  // ---- one bucket ----

  /** Whole refill intervals elapsed at `now`; none when the clock is not ahead. */
  function Intervals(b: Bucket, r: Rule, now: u64): (n: nat)
    requires r.rateIntervalMs > 0
  {
    if now > b.lastRefill then Quotient(now - b.lastRefill, r.rateIntervalMs) else 0
  }

  /** 64-bit refill as computed: both the product and the sum wrap. */
  function RefilledTokens(tokens: u64, r: Rule, n: nat): u64 {
    var add := n * r.rateTokens % TWO_64;
    var sum := (tokens + add) % TWO_64;
    if sum > r.burst then r.burst else sum
  }

  function Refill(b: Bucket, r: Rule, now: u64): Bucket
    requires r.rateIntervalMs > 0
  {
    var n := Intervals(b, r, now);
    if n == 0 then b else
      RefillStaysBehind(b, r, now);
      Bucket(RefilledTokens(b.tokens, r, n), b.lastRefill + r.rateIntervalMs * n)
  }

  lemma RefillStaysBehind(b: Bucket, r: Rule, now: u64)
    requires r.rateIntervalMs > 0 && now > b.lastRefill
    ensures b.lastRefill + r.rateIntervalMs * Intervals(b, r, now) <= now
  {
    var m := QuotientRemainder(now - b.lastRefill, r.rateIntervalMs);
  }

  /** One admission attempt: refill, then take a token if there is one. */
  function Attempt(b: Bucket, r: Rule, now: u64): (bool, Bucket)
    requires r.rateIntervalMs > 0
  {
    var f := Refill(b, r, now);
    if f.tokens > 0 then (true, f.(tokens := f.tokens - 1)) else (false, f)
  }

  function FullBucket(r: Rule, now: u64): Bucket { Bucket(r.burst, now) }

  /** SkRateAllow on the table seen as a partial map of at most SLOTS buckets. */
  function Allow(m: Buckets, r: Rule, now: u64): (bool, Buckets)
    requires r.rateIntervalMs > 0
  {
    if r.ruleId !in m && |m| >= SLOTS then (true, m)
    else
      var b := if r.ruleId in m then m[r.ruleId] else FullBucket(r, now);
      var (ok, b') := Attempt(b, r, now);
      (ok, m[r.ruleId := b'])
  }

  // ---- any run of one bucket, whatever the spacing or order of the clock readings ----

  function Run(b: Bucket, r: Rule, nows: seq<u64>): (Bucket, nat)
    requires r.rateIntervalMs > 0
  {
    if |nows| == 0 then (b, 0) else
      var (b', admitted) := Run(b, r, nows[..|nows| - 1]);
      var (ok, b'') := Attempt(b', r, nows[|nows| - 1]);
      (b'', admitted + if ok then 1 else 0)
  }

  function Latest(start: u64, nows: seq<u64>): (t: u64)
    ensures t >= start
  {
    if |nows| == 0 then start else
      var t := Latest(start, nows[..|nows| - 1]);
      if nows[|nows| - 1] > t then nows[|nows| - 1] else t
  }

  /** The refill clock is the last whole interval boundary passed by `latest`, and admissions plus
      remaining tokens do not exceed the starting tokens plus what those intervals are worth. */
  ghost predicate Within(b: Bucket, admitted: nat, start: Bucket, r: Rule, latest: u64)
    requires r.rateIntervalMs > 0
  {
    && latest >= start.lastRefill
    && var k := Quotient(latest - start.lastRefill, r.rateIntervalMs);
    && b.lastRefill == start.lastRefill + r.rateIntervalMs * k
    && admitted + b.tokens <= start.tokens + r.rateTokens * k
  }

  /** Wrap-around can only lower the left-hand side, so the bound needs no overflow hypothesis. */
  lemma {:induction false} RunBound(b: Bucket, r: Rule, nows: seq<u64>)
    requires r.rateIntervalMs > 0
    ensures Within(Run(b, r, nows).0, Run(b, r, nows).1, b, r, Latest(b.lastRefill, nows))
  {
    if |nows| == 0 {
      QuotientUnique(0, r.rateIntervalMs, 0, 0);
    } else {
      var before := nows[..|nows| - 1];
      RunBound(b, r, before);
      var (mid, admitted) := Run(b, r, before);
      AttemptKeepsBound(mid, admitted, b, r, Latest(b.lastRefill, before), nows[|nows| - 1]);
    }
  }

  lemma AttemptKeepsBound(b: Bucket, admitted: nat, start: Bucket, r: Rule, latest: u64, now: u64)
    requires r.rateIntervalMs > 0 && Within(b, admitted, start, r, latest)
    ensures var (ok, b') := Attempt(b, r, now);
      Within(b', admitted + if ok then 1 else 0, start, r, if now > latest then now else latest)
  {
    var n := Intervals(b, r, now);
    var k := Quotient(latest - start.lastRefill, r.rateIntervalMs);
    BoundaryStep(start.lastRefill, r.rateIntervalMs, latest, now, b.lastRefill);
    RefillAtMost(b.tokens, r, n);
    Distribute(r.rateIntervalMs, k, n);
    Distribute(r.rateTokens, k, n);
  }

  /** A bucket created at t0 starts full: the bound in the form the documentation gives it. */
  lemma CreatedBucketBound(r: Rule, t0: u64, nows: seq<u64>)
    requires r.rateIntervalMs > 0
    ensures var k := Quotient(Latest(t0, nows) - t0, r.rateIntervalMs);
      var (b, admitted) := Run(FullBucket(r, t0), r, nows);
      && b.lastRefill == t0 + r.rateIntervalMs * k
      && admitted + b.tokens <= r.burst + r.rateTokens * k
  {
    RunBound(FullBucket(r, t0), r, nows);
  }

  lemma Distribute(a: nat, k: nat, n: nat)
    ensures a * (k + n) == a * k + a * n
  {}

  lemma BoundaryStep(t0: nat, i: nat, latest: nat, now: nat, last: nat)
    requires i > 0 && latest >= t0 && last == t0 + i * Quotient(latest - t0, i)
    ensures var latest' := if now > latest then now else latest;
      var n := if now > last then Quotient(now - last, i) else 0;
      Quotient(latest' - t0, i) == Quotient(latest - t0, i) + n
  {
    var k := Quotient(latest - t0, i);
    var r0 := QuotientRemainder(latest - t0, i);
    if now > latest {
      var r1 := QuotientRemainder(now - last, i);
      var n := Quotient(now - last, i);
      Distribute(i, k, n);
      QuotientUnique(now - t0, i, k + n, r1);
    } else if now > last {
      QuotientUnique(now - last, i, 0, now - last);
    }
  }

  lemma RefillAtMost(tokens: u64, r: Rule, n: nat)
    ensures RefilledTokens(tokens, r, n) <= tokens + r.rateTokens * n
    ensures RefilledTokens(tokens, r, n) <= r.burst
  {
    var p := n * r.rateTokens;
    assert p == r.rateTokens * n;
    ModAtMost(p);
    ModAtMost(tokens + p % TWO_64);
  }

  lemma ModAtMost(x: nat)
    ensures x % TWO_64 <= x
  {}

  /** The refill the comment describes, on unbounded integers. */
  function IdealTokens(tokens: nat, r: Rule, n: nat): nat {
    if tokens + n * r.rateTokens > r.burst then r.burst else tokens + n * r.rateTokens
  }

  /** The 64-bit refill is the ideal one exactly when the sum does not wrap, or wraps high enough. */
  lemma RefillIdealIff(tokens: u64, r: Rule, n: nat)
    ensures RefilledTokens(tokens, r, n) == IdealTokens(tokens, r, n)
       <==> (tokens + n * r.rateTokens < TWO_64 || (tokens + n * r.rateTokens) % TWO_64 >= r.burst)
  {
    var p := n * r.rateTokens;
    ModSum(tokens, p);
  }

  lemma ModSum(a: nat, p: nat)
    ensures (a + p % TWO_64) % TWO_64 == (a + p) % TWO_64
  {}

  // ---- what a bucket must admit ----

  /** n whole intervals have passed at `now` since the last refill. */
  predicate Elapsed(b: Bucket, r: Rule, now: u64, n: nat) {
    if now > b.lastRefill then n * r.rateIntervalMs <= now - b.lastRefill < n * r.rateIntervalMs + r.rateIntervalMs
    else n == 0
  }

  /** The tokens a bucket has to spend after n whole intervals: rateTokens each, no more than burst. */
  function Spendable(b: Bucket, r: Rule, n: nat): nat {
    if n == 0 then b.tokens
    else if b.tokens + n * r.rateTokens > r.burst then r.burst
    else b.tokens + n * r.rateTokens
  }

  lemma IntervalsElapsed(b: Bucket, r: Rule, now: u64, n: nat)
    requires r.rateIntervalMs > 0 && Elapsed(b, r, now, n)
    ensures Intervals(b, r, now) == n
  {
    if now > b.lastRefill {
      Commutes(n, r.rateIntervalMs);
      QuotientUnique(now - b.lastRefill, r.rateIntervalMs, n, now - b.lastRefill - n * r.rateIntervalMs);
    }
  }

  lemma Commutes(a: nat, b: nat)
    ensures a * b == b * a
  {
  }

  /** A call is admitted if and only if the bucket has a token to spend, and takes exactly that one;
      the refill clock ends at the last whole interval. */
  lemma AttemptIff(b: Bucket, r: Rule, now: u64, n: nat)
    requires r.rateIntervalMs > 0 && Elapsed(b, r, now, n) && b.tokens + n * r.rateTokens < TWO_64
    ensures var (ok, b') := Attempt(b, r, now);
      var spend := Spendable(b, r, n);
      && (ok <==> spend > 0)
      && b'.tokens == (if spend > 0 then spend - 1 else 0)
      && b'.lastRefill == b.lastRefill + n * r.rateIntervalMs
  {
    IntervalsElapsed(b, r, now, n);
    Commutes(n, r.rateIntervalMs);
    if n > 0 { RefillIdealIff(b.tokens, r, n); }
  }

  function AtOnce(now: u64, k: nat): seq<u64> { if k == 0 then [] else AtOnce(now, k - 1) + [now] }

  /** As long as the 64-bit sum does not wrap: of any number of calls at one clock reading exactly as
      many are admitted as there are tokens to spend, and every further one is refused. */
  lemma {:induction false} ExactlySpendable(b: Bucket, r: Rule, now: u64, n: nat, k: nat)
    requires r.rateIntervalMs > 0 && Elapsed(b, r, now, n) && b.tokens + n * r.rateTokens < TWO_64
    ensures var (b', admitted) := Run(b, r, AtOnce(now, k));
      var spend := Spendable(b, r, n);
      && admitted == (if k < spend then k else spend)
      && (k > 0 ==> b'.tokens == spend - admitted && b'.lastRefill == b.lastRefill + n * r.rateIntervalMs)
  {
    if k > 0 {
      ExactlySpendable(b, r, now, n, k - 1);
      RunSnoc(b, r, AtOnce(now, k - 1), now);
      var (c, _) := Run(b, r, AtOnce(now, k - 1));
      if k == 1 {
        AttemptIff(b, r, now, n);
      } else {
        AttemptIff(c, r, now, 0);
      }
    }
  }

  /** On the table: a call is admitted if and only if all 64 slots belong to other rules, or the
      rule's bucket, a full one if it has none, has a token to spend. */
  lemma AllowIff(m: Buckets, r: Rule, now: u64, n: nat)
    requires r.rateIntervalMs > 0
    requires var b := if r.ruleId in m then m[r.ruleId] else Bucket(r.burst, now);
      Elapsed(b, r, now, n) && b.tokens + n * r.rateTokens < TWO_64
    ensures var b := if r.ruleId in m then m[r.ruleId] else Bucket(r.burst, now);
      Allow(m, r, now).0 <==> (r.ruleId !in m && |m| >= 64) || Spendable(b, r, n) > 0
  {
    AttemptIff(if r.ruleId in m then m[r.ruleId] else Bucket(r.burst, now), r, now, n);
  }

  /** A rule that validation accepts: 2^31 tokens every millisecond, and a burst of one. */
  function Generous(id: u64): Rule {
    var zero: Address := seq(16, _ => 0);
    Rule(id, 0, 0, ACTION_RATE_LIMIT, 1, 0, 0, 0, 0, 0, 0, 0, 0, 0, 0, 0, 0, 0, zero, zero, 0, 0, seq(32, _ => 0), 0,
         0x8000_0000, 1, 1)
  }

  lemma GenerousIdle(id: u64)
    ensures Refill(Bucket(0, 0), Generous(id), 0x2_0000_0000) == Bucket(0, 0x2_0000_0000)
    ensures IdealTokens(0, Generous(id), Intervals(Bucket(0, 0), Generous(id), 0x2_0000_0000)) == 1
  {
    var r, idle := Generous(id), 0x2_0000_0000;
    QuotientUnique(idle, 1, idle, 0);
    assert Intervals(Bucket(0, 0), r, idle) == idle;
  }

  /** A first call at clock 0 takes the only token; 2^33 milliseconds later the refill wraps to
      nothing and the second call is refused, where the ideal refill would admit it. */
  lemma RefillCanVanish(id: u64)
    requires id > 0
    ensures var r := Generous(id);
      var (first, b) := Attempt(FullBucket(r, 0), r, 0);
      var (second, _) := Attempt(b, r, 0x2_0000_0000);
      && Accepted(r) && first && !second
      && IdealTokens(b.tokens, r, Intervals(b, r, 0x2_0000_0000)) == 1
  {
    var r := Generous(id);
    assert r.mask == 0;
    assert Attempt(FullBucket(r, 0), r, 0) == (true, Bucket(0, 0));
    GenerousIdle(id);
  }

  lemma AllowMeans(m: Buckets, r: Rule, now: u64)
    requires r.rateIntervalMs > 0
    ensures r.ruleId in m ==> forall n: nat ::
      Elapsed(m[r.ruleId], r, now, n) && m[r.ruleId].tokens + n * r.rateTokens < TWO_64 ==>
        (Allow(m, r, now).0 <==> Spendable(m[r.ruleId], r, n) > 0)
    ensures r.ruleId !in m ==> (Allow(m, r, now).0 <==> |m| >= 64 || r.burst > 0)
  {
    if r.ruleId in m {
      forall n: nat | Elapsed(m[r.ruleId], r, now, n) && m[r.ruleId].tokens + n * r.rateTokens < TWO_64
        ensures Allow(m, r, now).0 <==> Spendable(m[r.ruleId], r, n) > 0
      {
        AllowIff(m, r, now, n);
      }
    } else {
      AllowIff(m, r, now, 0);
    }
  }

  // ---- one id over any run of the shared table ----

  datatype Admission = Admission(rule: Rule, now: u64)

  predicate Refillable(asks: seq<Admission>) { forall i :: 0 <= i < |asks| ==> asks[i].rule.rateIntervalMs > 0 }

  /** All calls for `id` carry rule r. */
  predicate Uniform(asks: seq<Admission>, id: u64, r: Rule) {
    Refillable(asks) && forall i :: 0 <= i < |asks| && asks[i].rule.ruleId == id ==> asks[i].rule == r
  }

  /** The table after a run of admissions, and how many calls for `id` it let through. */
  function Shared(m: Buckets, asks: seq<Admission>, id: u64): (Buckets, nat)
    requires Refillable(asks)
  {
    if |asks| == 0 then (m, 0)
    else
      var (m', admitted) := Shared(m, asks[..|asks| - 1], id);
      var a := asks[|asks| - 1];
      var (ok, m'') := Allow(m', a.rule, a.now);
      (m'', admitted + if ok && a.rule.ruleId == id then 1 else 0)
  }

  /** The clock readings of the calls for `id`. */
  function Times(asks: seq<Admission>, id: u64): seq<u64> {
    if |asks| == 0 then []
    else
      var a := asks[|asks| - 1];
      Times(asks[..|asks| - 1], id) + if a.rule.ruleId == id then [a.now] else []
  }

  /** What the shared table may hold for `id`, whose calls all carry rule r: its own bucket run as if
      alone; or, exactly when it never got a slot, nothing, every call admitted by a full table. */
  ghost predicate AsAlone(m: Buckets, id: u64, r: Rule, nows: seq<u64>, m': Buckets, admitted: nat)
    requires r.rateIntervalMs > 0
  {
    if id in m then id in m' && (m'[id], admitted) == Run(m[id], r, nows)
    else if id in m' then |nows| > 0 && (m'[id], admitted) == Run(FullBucket(r, nows[0]), r, nows)
    else admitted == |nows| && (|nows| > 0 ==> |m'| >= SLOTS)
  }

  lemma RunSnoc(b: Bucket, r: Rule, nows: seq<u64>, now: u64)
    requires r.rateIntervalMs > 0
    ensures var (c, admitted) := Run(b, r, nows);
      var (ok, d) := Attempt(c, r, now);
      Run(b, r, nows + [now]) == (d, admitted + if ok then 1 else 0)
  {
    assert (nows + [now])[..|nows|] == nows;
  }

  lemma AllowAsAlone(m: Buckets, id: u64, r: Rule, nows: seq<u64>, m': Buckets, admitted: nat, now: u64)
    requires r.rateIntervalMs > 0 && r.ruleId == id && AsAlone(m, id, r, nows, m', admitted)
    ensures var (ok, m'') := Allow(m', r, now);
      AsAlone(m, id, r, nows + [now], m'', admitted + if ok then 1 else 0)
  {
    if id in m {
      RunSnoc(m[id], r, nows, now);
    } else if id in m' {
      RunSnoc(FullBucket(r, nows[0]), r, nows, now);
      assert (nows + [now])[0] == nows[0];
    } else if |m'| < SLOTS {
      RunSnoc(FullBucket(r, now), r, [], now);
      assert [] + [now] == [now] && nows == [];
    }
  }

  lemma OtherAsAlone(m: Buckets, id: u64, r: Rule, nows: seq<u64>, m': Buckets, admitted: nat, a: Admission)
    requires r.rateIntervalMs > 0 && a.rule.rateIntervalMs > 0 && a.rule.ruleId != id
    requires AsAlone(m, id, r, nows, m', admitted)
    ensures AsAlone(m, id, r, nows, Allow(m', a.rule, a.now).1, admitted)
  {
    var m'' := Allow(m', a.rule, a.now).1;
    assert id in m'' <==> id in m';
    assert m'.Keys <= m''.Keys;
    Larger(m', m'');
  }

  lemma Larger(m: Buckets, n: Buckets)
    requires m.Keys <= n.Keys
    ensures |m| <= |n|
  {
    assert n.Keys == m.Keys + (n.Keys - m.Keys);
    assert |m| == |m.Keys| && |n| == |n.Keys|;
  }

  lemma OneAsAlone(m: Buckets, id: u64, r: Rule, nows: seq<u64>, m': Buckets, admitted: nat, a: Admission)
    requires r.rateIntervalMs > 0 && r.ruleId == id && a.rule.rateIntervalMs > 0
    requires a.rule.ruleId == id ==> a.rule == r
    requires AsAlone(m, id, r, nows, m', admitted)
    ensures var (ok, m'') := Allow(m', a.rule, a.now);
      AsAlone(m, id, r, nows + (if a.rule.ruleId == id then [a.now] else []), m'',
              admitted + if ok && a.rule.ruleId == id then 1 else 0)
  {
    if a.rule.ruleId == id {
      AllowAsAlone(m, id, r, nows, m', admitted, a.now);
    } else {
      OtherAsAlone(m, id, r, nows, m', admitted, a);
      assert nows + [] == nows;
    }
  }

  /** Sharing the table changes nothing for an id that has a slot; one that finds the table full is
      never limited. */
  lemma {:induction false} SharedAsAlone(m: Buckets, asks: seq<Admission>, id: u64, r: Rule)
    requires r.rateIntervalMs > 0 && r.ruleId == id
    requires Uniform(asks, id, r)
    ensures var (m', admitted) := Shared(m, asks, id);
      AsAlone(m, id, r, Times(asks, id), m', admitted)
  {
    if |asks| > 0 {
      var before := asks[..|asks| - 1];
      SharedAsAlone(m, before, id, r);
      var (m', admitted) := Shared(m, before, id);
      OneAsAlone(m, id, r, Times(before, id), m', admitted, asks[|asks| - 1]);
    }
  }

  /** The admission bound on the shared table, from an empty slot, with its one exception. */
  lemma SharedBound(m: Buckets, asks: seq<Admission>, id: u64, r: Rule)
    requires r.rateIntervalMs > 0 && r.ruleId == id && id !in m
    requires Uniform(asks, id, r)
    ensures var (m', admitted) := Shared(m, asks, id);
      var nows := Times(asks, id);
      if id in m' then
        && |nows| > 0
        && var k := Quotient(Latest(nows[0], nows) - nows[0], r.rateIntervalMs);
        && m'[id].lastRefill == nows[0] + r.rateIntervalMs * k
        && admitted + m'[id].tokens <= r.burst + r.rateTokens * k
      else admitted == |nows| && (|nows| > 0 ==> |m'| >= SLOTS)
  {
    SharedAsAlone(m, asks, id, r);
    var nows := Times(asks, id);
    if id in Shared(m, asks, id).0 { CreatedBucketBound(r, nows[0], nows); }
  }

  function AsksAtOnce(r: Rule, now: u64, k: nat): seq<Admission> {
    if k == 0 then [] else AsksAtOnce(r, now, k - 1) + [Admission(r, now)]
  }

  lemma {:induction false} AtOnceAre(now: u64, k: nat)
    ensures |AtOnce(now, k)| == k && forall i :: 0 <= i < k ==> AtOnce(now, k)[i] == now
  {
    if k > 0 { AtOnceAre(now, k - 1); }
  }

  lemma {:induction false} AsksAre(r: Rule, now: u64, k: nat)
    requires r.rateIntervalMs > 0
    ensures |AsksAtOnce(r, now, k)| == k && forall i :: 0 <= i < k ==> AsksAtOnce(r, now, k)[i] == Admission(r, now)
  {
    if k > 0 { AsksAre(r, now, k - 1); }
  }

  lemma {:induction false} AskTimes(r: Rule, now: u64, k: nat)
    ensures Times(AsksAtOnce(r, now, k), r.ruleId) == AtOnce(now, k)
  {
    if k > 0 {
      AskTimes(r, now, k - 1);
      assert AsksAtOnce(r, now, k)[..|AsksAtOnce(r, now, k)| - 1] == AsksAtOnce(r, now, k - 1);
    }
  }

  lemma AllowKeepsSlot(m: Buckets, r: Rule, now: u64)
    requires r.rateIntervalMs > 0 && (r.ruleId in m || |m| < SLOTS)
    ensures r.ruleId in Allow(m, r, now).1
  {
  }

  lemma {:induction false} AsksGetASlot(m: Buckets, r: Rule, now: u64, k: nat)
    requires r.rateIntervalMs > 0 && (r.ruleId in m || |m| < SLOTS) && k > 0
    requires Refillable(AsksAtOnce(r, now, k))
    ensures r.ruleId in Shared(m, AsksAtOnce(r, now, k), r.ruleId).0
  {
    AsksAre(r, now, k);
    AsksAre(r, now, k - 1);
    var all := AsksAtOnce(r, now, k);
    assert all[..k - 1] == AsksAtOnce(r, now, k - 1);
    if k > 1 { AsksGetASlot(m, r, now, k - 1); }
    AllowKeepsSlot(Shared(m, all[..k - 1], r.ruleId).0, r, now);
  }

  /** The same on the shared table, for a rule that has a slot or finds one: of k calls at one clock
      reading exactly min(k, tokens to spend) are admitted; for a rule without a bucket that is its
      burst. */
  lemma SharedExactly(m: Buckets, r: Rule, now: u64, n: nat, k: nat)
    requires r.rateIntervalMs > 0 && (r.ruleId in m || |m| < 64)
    requires var b := if r.ruleId in m then m[r.ruleId] else Bucket(r.burst, now);
      Elapsed(b, r, now, n) && b.tokens + n * r.rateTokens < TWO_64
    ensures Refillable(AsksAtOnce(r, now, k))
    ensures var spend := Spendable(if r.ruleId in m then m[r.ruleId] else Bucket(r.burst, now), r, n);
      Shared(m, AsksAtOnce(r, now, k), r.ruleId).1 == if k < spend then k else spend
  {
    AsksAre(r, now, k);
    AtOnceAre(now, k);
    AskTimes(r, now, k);
    if k > 0 { AsksGetASlot(m, r, now, k); }
    SharedAsAlone(m, AsksAtOnce(r, now, k), r.ruleId, r);
    ExactlySpendable(if r.ruleId in m then m[r.ruleId] else Bucket(r.burst, now), r, now, n, k);
  }

  // ---- the table ----

  predicate DistinctIds(s: seq<Slot>) {
    forall i, j :: 0 <= i < j < |s| && s[i].inUse && s[j].inUse ==> s[i].ruleId != s[j].ruleId
  }

  ghost function BucketsOf(s: seq<Slot>): Buckets
    requires DistinctIds(s)
  {
    map i | 0 <= i < |s| && s[i].inUse :: s[i].ruleId := s[i].bucket
  }

  ghost function UsedIds(s: seq<Slot>): set<u64> {
    set i | 0 <= i < |s| && s[i].inUse :: s[i].ruleId
  }

  lemma UsedSnoc(p: seq<Slot>, x: Slot)
    requires DistinctIds(p + [x])
    ensures DistinctIds(p)
    ensures |UsedIds(p + [x])| == |UsedIds(p)| + if x.inUse then 1 else 0
  {
    var s := p + [x];
    assert forall i :: 0 <= i < |p| ==> s[i] == p[i];
    assert s[|p|] == x;
    if x.inUse {
      assert x.ruleId !in UsedIds(p);
      assert UsedIds(s) == UsedIds(p) + {x.ruleId};
    } else {
      assert UsedIds(s) == UsedIds(p);
    }
  }

  lemma {:induction false} UsedCount(s: seq<Slot>)
    requires DistinctIds(s)
    ensures |UsedIds(s)| <= |s|
    ensures |UsedIds(s)| == |s| <==> forall i :: 0 <= i < |s| ==> s[i].inUse
  {
    if |s| > 0 {
      var p, x := s[..|s| - 1], s[|s| - 1];
      assert s == p + [x];
      UsedSnoc(p, x);
      UsedCount(p);
    }
  }

  lemma TableSize(s: seq<Slot>)
    requires DistinctIds(s)
    ensures BucketsOf(s).Keys == UsedIds(s)
    ensures |BucketsOf(s)| == |s| <==> forall i :: 0 <= i < |s| ==> s[i].inUse
    ensures |BucketsOf(s)| <= |s|
  {
    UsedCount(s);
    assert |BucketsOf(s)| == |BucketsOf(s).Keys|;
  }

  /** g_RateTable. */
  class Table {
    var slots: array<Slot>

    ghost predicate Valid()
      reads this, slots
    {
      slots.Length == SLOTS && DistinctIds(slots[..])
    }

    ghost function Map(): Buckets
      reads this, slots
      requires Valid()
    {
      BucketsOf(slots[..])
    }

    constructor ()
      ensures Valid() && fresh(slots) && Map() == map[]
    {
      slots := new Slot[SLOTS](_ => Slot(false, 0, Bucket(0, 0)));
    }

    /** The scan of SkRateAllow: the rule's slot, else the first free slot, else SLOTS. */
    method FindSlot(ruleId: u64) returns (slot: nat)
      requires Valid()
      ensures slot <= SLOTS
      ensures slot < SLOTS && slots[slot].inUse ==> slots[slot].ruleId == ruleId
      ensures slot == SLOTS || !slots[slot].inUse ==> ruleId !in Map()
      ensures slot == SLOTS <==> ruleId !in Map() && forall k :: 0 <= k < SLOTS ==> slots[k].inUse
    {
      slot := SLOTS;
      var i := 0;
      while i < SLOTS
        invariant i <= SLOTS && slot <= SLOTS
        invariant forall k :: 0 <= k < i && slots[k].inUse ==> slots[k].ruleId != ruleId
        invariant slot == SLOTS ==> forall k :: 0 <= k < i ==> slots[k].inUse
        invariant slot < SLOTS ==> !slots[slot].inUse
      {
        if slots[i].inUse && slots[i].ruleId == ruleId {
          assert slots[..][i].inUse;
          return i;
        }
        if !slots[i].inUse && slot == SLOTS {
          slot := i;
        }
        i := i + 1;
      }
    }

    /** SkRateAllow: a new bucket starts full; a full table without the rule fails open. */
    method TryTake(r: Rule, now: u64) returns (allowed: bool)
      requires Valid() && r.rateIntervalMs > 0
      modifies slots
      ensures Valid()
      ensures (allowed, Map()) == Allow(old(Map()), r, now)
      ensures r.ruleId in old(Map()) ==> forall n: nat ::
        Elapsed(old(Map())[r.ruleId], r, now, n) && old(Map())[r.ruleId].tokens + n * r.rateTokens < TWO_64 ==>
          (allowed <==> Spendable(old(Map())[r.ruleId], r, n) > 0)
      ensures r.ruleId !in old(Map()) ==> (allowed <==> |old(Map())| >= 64 || r.burst > 0)
    {
      AllowMeans(Map(), r, now);
      var slot := FindSlot(r.ruleId);
      ghost var was := slots[..];
      TableSize(was);
      assert slot == SLOTS <==> r.ruleId !in BucketsOf(was) && forall k :: 0 <= k < |was| ==> was[k].inUse;
      if slot == SLOTS {
        return true;
      }
      var b := if slots[slot].inUse then slots[slot].bucket else FullBucket(r, now);
      assert was[slot].inUse ==> BucketsOf(was)[r.ruleId] == b;
      var (ok, b') := Attempt(b, r, now);
      StoreSlot(was, slot, r.ruleId, b');
      slots[slot] := Slot(true, r.ruleId, b');
      assert slots[..] == was[slot := Slot(true, r.ruleId, b')];
      allowed := ok;
    }

    /** SkRuleRateReset: clear the rule's slot. */
    method Reset(ruleId: u64)
      requires Valid()
      modifies slots
      ensures Valid() && Map() == old(Map()) - {ruleId}
    {
      var i := 0;
      while i < SLOTS
        invariant i <= SLOTS
        invariant forall k :: 0 <= k < i && slots[k].inUse ==> slots[k].ruleId != ruleId
        invariant slots[..] == old(slots[..])
      {
        if slots[i].inUse && slots[i].ruleId == ruleId {
          ghost var was := slots[..];
          slots[i] := Slot(false, 0, Bucket(0, 0));
          assert slots[..] == was[i := Slot(false, 0, Bucket(0, 0))];
          ClearSlot(was, i);
          return;
        }
        i := i + 1;
      }
      assert ruleId !in Map();
    }
  }

  lemma StoreSlot(s: seq<Slot>, i: nat, id: u64, b: Bucket)
    requires DistinctIds(s) && i < |s|
    requires if s[i].inUse then s[i].ruleId == id else id !in UsedIds(s)
    ensures DistinctIds(s[i := Slot(true, id, b)])
    ensures BucketsOf(s[i := Slot(true, id, b)]) == BucketsOf(s)[id := b]
  {
    var t := s[i := Slot(true, id, b)];
    forall j, k | 0 <= j < k < |t| && t[j].inUse && t[k].inUse ensures t[j].ruleId != t[k].ruleId {
      assert j != i && s[j].inUse ==> s[j].ruleId in UsedIds(s);
      assert k != i && s[k].inUse ==> s[k].ruleId in UsedIds(s);
    }
    assert t[i].ruleId == id;
    forall x ensures x in BucketsOf(t) <==> x in BucketsOf(s)[id := b] {
      if x in BucketsOf(s) && x != id {
        var j :| 0 <= j < |s| && s[j].inUse && s[j].ruleId == x;
        assert t[j] == s[j];
      }
    }
  }

  lemma ClearSlot(s: seq<Slot>, i: nat)
    requires DistinctIds(s) && i < |s| && s[i].inUse
    ensures DistinctIds(s[i := Slot(false, 0, Bucket(0, 0))])
    ensures BucketsOf(s[i := Slot(false, 0, Bucket(0, 0))]) == BucketsOf(s) - {s[i].ruleId}
  {
    var t := s[i := Slot(false, 0, Bucket(0, 0))];
    var m, n := BucketsOf(t), BucketsOf(s) - {s[i].ruleId};
    forall x ensures (x in m <==> x in n) && (x in n ==> m[x] == n[x]) {
      if x in n {
        var j :| 0 <= j < |s| && s[j].inUse && s[j].ruleId == x;
        assert t[j] == s[j];
      }
      if x in m {
        var j :| 0 <= j < |t| && t[j].inUse && t[j].ruleId == x;
        assert j != i;
        assert s[j] == t[j];
      }
    }
  }
}
