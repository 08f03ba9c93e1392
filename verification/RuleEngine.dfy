/** Rule evaluation: the first-match scan, its verdict, the rate table and the statistics. */
module RuleEngine {
  import opened RuleTypes
  import opened RuleMatch
  import opened RuleOrder
  import opened RateTable

  // ---- the verdict, stated on the set of rules ----

  /** The enabled matching rule that outranks every other one. */
  ghost predicate Strongest(r: Rule, rules: set<Rule>, t: Tuple) {
    && r in rules && Matches(r, t)
    && forall q :: q in rules && Matches(q, t) && q != r ==> Outranks(r, q)
  }

  /** The verdict rule on its fields: no enabled matching rule has a higher priority, none of the same
      priority a stronger action, none equal in both a smaller id. */
  ghost predicate TopOf(r: Rule, rules: set<Rule>, t: Tuple) {
    && r in rules && Matches(r, t) && r.enabled != 0
    && forall q :: q in rules && Matches(q, t) ==>
         && q.priority <= r.priority
         && (q.priority == r.priority ==> !Stronger(q.action, r.action))
         && (q.priority == r.priority && !Stronger(r.action, q.action) ==> r.ruleId <= q.ruleId)
  }

  lemma StrongestIsTop(r: Rule, rules: set<Rule>, t: Tuple)
    requires Strongest(r, rules, t)
    ensures TopOf(r, rules, t)
  {
    forall q | q in rules && Matches(q, t)
      ensures q.priority <= r.priority
      ensures q.priority == r.priority ==> !Stronger(q.action, r.action)
      ensures q.priority == r.priority && !Stronger(r.action, q.action) ==> r.ruleId <= q.ruleId
    {
      assert q == r || Outranks(r, q);
    }
  }

  /** The scan of SkRuleEvaluate. */
  function FirstMatch(rules: seq<Rule>, t: Tuple): Option<Rule> {
    if |rules| == 0 then None
    else if Matches(rules[0], t) then Some(rules[0])
    else FirstMatch(rules[1..], t)
  }

  /** On a verdict-ordered snapshot the first match is the strongest match, and there is none
      exactly when no rule matches. */
  lemma {:induction false} FirstMatchIsStrongest(rules: seq<Rule>, t: Tuple)
    requires Ordered(rules)
    ensures FirstMatch(rules, t).None? <==> forall r :: r in rules ==> !Matches(r, t)
    ensures FirstMatch(rules, t).Some? ==>
      Strongest(FirstMatch(rules, t).value, Elements(rules), t) && TopOf(FirstMatch(rules, t).value, Elements(rules), t)
  {
    if |rules| > 0 {
      var rest := rules[1..];
      FirstMatchIsStrongest(rest, t);
      assert rules == [rules[0]] + rest;
      if Matches(rules[0], t) {
        forall q | q in rules && q != rules[0] ensures Outranks(rules[0], q) {
          var i :| 0 <= i < |rules| && rules[i] == q;
          PrecedesIffOutranks(rules[0], q);
        }
      }
      if FirstMatch(rules, t).Some? { StrongestIsTop(FirstMatch(rules, t).value, Elements(rules), t); }
    }
  }

  lemma StrongestIsUnique(a: Rule, b: Rule, rules: set<Rule>, t: Tuple)
    requires Strongest(a, rules, t) && Strongest(b, rules, t)
    ensures a == b
  {
    if a != b {
      PrecedesIffOutranks(a, b);
      PrecedesIffOutranks(b, a);
      assert false by { PrecedesIsStrictOrder(a, b, a); }
    }
  }

  /** Rules with unique ids give one verdict, whatever order they were supplied in. */
  lemma SupplyOrderIrrelevant(p: seq<Rule>, q: seq<Rule>, t: Tuple)
    requires UniqueIds(p) && UniqueIds(q) && Elements(p) == Elements(q)
    ensures FirstMatch(InsertionSort(p), t) == FirstMatch(InsertionSort(q), t)
  {
    SortOrders(p);
    SortOrders(q);
    OrderedIsCanonical(InsertionSort(p), InsertionSort(q));
  }

  // ---- evaluation ----

  datatype Action = Permit | Block | Audit
  datatype Reason = RuleMatched | NoMatch | SnapshotUnavailable
  datatype Verdict = Verdict(action: Action, ruleId: u64, rateLimited: bool, hardBlock: bool, reason: Reason)

  predicate Evaluable(snap: Option<Snapshot>) {
    snap.Some? ==> forall r :: r in snap.value.rules && r.action == ACTION_RATE_LIMIT ==> r.rateIntervalMs > 0
  }

  /** Verdict and table after evaluating with a given deciding rule. */
  function Decide(hit: Option<Rule>, snap: Option<Snapshot>, now: u64, m: Buckets): (Verdict, Buckets)
    requires hit.Some? && hit.value.action == ACTION_RATE_LIMIT ==> hit.value.rateIntervalMs > 0
  {
    match hit
    case None =>
      var reason := if snap.Some? then NoMatch else SnapshotUnavailable;
      if snap.Some? && snap.value.policy == POLICY_BLOCK then (Verdict(Block, 0, false, true, reason), m)
      else (Verdict(Permit, 0, false, false, reason), m)
    case Some(r) =>
      if r.action == ACTION_BLOCK then (Verdict(Block, r.ruleId, false, true, RuleMatched), m)
      else if r.action == ACTION_AUDIT then (Verdict(Audit, r.ruleId, false, false, RuleMatched), m)
      else if r.action == ACTION_RATE_LIMIT then
        var (ok, m') := Allow(m, r, now);
        if ok then (Verdict(Audit, r.ruleId, false, false, RuleMatched), m')
        else (Verdict(Block, r.ruleId, true, true, RuleMatched), m')
      else (Verdict(Permit, r.ruleId, false, false, RuleMatched), m)
  }

  /** What an evaluation must return: decided by the strongest match, or by the default policy. */
  ghost predicate IsVerdict(v: Verdict, m': Buckets, snap: Option<Snapshot>, t: Tuple, now: u64, m: Buckets)
    requires Evaluable(snap)
  {
    || (snap.Some? && exists r ::
          Strongest(r, Elements(snap.value.rules), t) && (v, m') == Decide(Some(r), snap, now, m))
    || ((snap.Some? ==> forall r :: r in snap.value.rules ==> !Matches(r, t)) && (v, m') == Decide(None, snap, now, m))
  }

  /** What the caller is told, on the fields of the strongest match `hit`, the default policy of the
      snapshot if there is one, and whether the token bucket admitted. */
  ghost predicate Answers(v: Verdict, hit: Option<Rule>, snap: Option<Snapshot>, admitted: bool) {
    && (v.action.Block? <==>
          if hit.Some? then hit.value.action == ACTION_BLOCK || (hit.value.action == ACTION_RATE_LIMIT && !admitted)
          else snap.Some? && snap.value.policy == POLICY_BLOCK)
    && (v.action.Audit? <==>
          hit.Some? && (hit.value.action == ACTION_AUDIT || (hit.value.action == ACTION_RATE_LIMIT && admitted)))
    && (v.hardBlock <==> v.action.Block?)
    && (v.rateLimited <==> hit.Some? && hit.value.action == ACTION_RATE_LIMIT && !admitted)
    && v.ruleId == (if hit.Some? then hit.value.ruleId else 0)
    && v.reason == (if hit.Some? then RuleMatched else if snap.Some? then NoMatch else SnapshotUnavailable)
  }

  /** Whether the deciding rule's bucket admits, and the table it leaves. */
  ghost function BucketAnswer(hit: Option<Rule>, now: u64, m: Buckets): (bool, Buckets)
    requires hit.Some? && hit.value.action == ACTION_RATE_LIMIT ==> hit.value.rateIntervalMs > 0
  {
    if hit.Some? && hit.value.action == ACTION_RATE_LIMIT then Allow(m, hit.value, now) else (true, m)
  }

  lemma DecideAnswers(hit: Option<Rule>, snap: Option<Snapshot>, now: u64, m: Buckets)
    requires hit.Some? && hit.value.action == ACTION_RATE_LIMIT ==> hit.value.rateIntervalMs > 0
    ensures Answers(Decide(hit, snap, now, m).0, hit, snap, BucketAnswer(hit, now, m).0)
    ensures Decide(hit, snap, now, m).1 == BucketAnswer(hit, now, m).1
  {
  }

  /** The verdict of an evaluation, without reference to how it is computed: the strongest match and
      its bucket answer, or the default policy when nothing matches. */
  ghost predicate Decided(v: Verdict, m': Buckets, snap: Option<Snapshot>, t: Tuple, now: u64, m: Buckets)
    requires Evaluable(snap)
  {
    || (snap.Some? && exists r ::
          && TopOf(r, Elements(snap.value.rules), t) && Strongest(r, Elements(snap.value.rules), t)
          && Answers(v, Some(r), snap, BucketAnswer(Some(r), now, m).0) && m' == BucketAnswer(Some(r), now, m).1)
    || ((snap.Some? ==> forall r :: r in snap.value.rules ==> !Matches(r, t))
          && Answers(v, None, snap, true) && m' == m)
  }

  lemma VerdictDecided(v: Verdict, m': Buckets, snap: Option<Snapshot>, t: Tuple, now: u64, m: Buckets)
    requires Evaluable(snap) && IsVerdict(v, m', snap, t, now, m)
    ensures Decided(v, m', snap, t, now, m)
  {
    if snap.Some?
       && exists r :: Strongest(r, Elements(snap.value.rules), t) && (v, m') == Decide(Some(r), snap, now, m) {
      var r :| Strongest(r, Elements(snap.value.rules), t) && (v, m') == Decide(Some(r), snap, now, m);
      StrongestIsTop(r, Elements(snap.value.rules), t);
      DecideAnswers(Some(r), snap, now, m);
    } else {
      DecideAnswers(None, snap, now, m);
    }
  }

  /** An evaluation touches at most the bucket of the rule that decided it. */
  lemma DecideTouchesOnlyHit(hit: Option<Rule>, snap: Option<Snapshot>, now: u64, m: Buckets, id: u64)
    requires hit.Some? && hit.value.action == ACTION_RATE_LIMIT ==> hit.value.rateIntervalMs > 0
    requires hit.None? || id != hit.value.ruleId
    ensures var m' := Decide(hit, snap, now, m).1;
      (id in m' <==> id in m) && (id in m ==> m'[id] == m[id])
  {}

  /** g_SkRuleStats and g_RateTable. */
  class Engine {
    const table: Table
    var calls: nat
    var permits: nat
    var blocks: nat
    var audits: nat
    var rateLimited: nat
    var ruleHits: nat
    var defaultHits: nat

    /** Every call is counted once by outcome and once by cause. */
    ghost predicate Valid()
      reads this, table, table.slots
    {
      && table.Valid()
      && calls == permits + blocks + audits == ruleHits + defaultHits
      && rateLimited <= blocks && rateLimited <= ruleHits
    }

    constructor ()
      ensures Valid() && fresh(table) && fresh(table.slots) && table.Map() == map[] && calls == 0
    {
      table := new Table();
      calls, permits, blocks, audits, rateLimited, ruleHits, defaultHits := 0, 0, 0, 0, 0, 0, 0;
    }

    /** SkRuleEvaluate. */
    method Evaluate(snap: Option<Snapshot>, t: Tuple, now: u64) returns (v: Verdict)
      requires Valid() && Evaluable(snap)
      requires snap.Some? ==> Ordered(snap.value.rules)
      modifies this, table.slots
      ensures Valid()
      ensures IsVerdict(v, table.Map(), snap, t, now, old(table.Map()))
      ensures Decided(v, table.Map(), snap, t, now, old(table.Map()))
      ensures calls == old(calls) + 1
      ensures permits == old(permits) + (if v.action.Permit? then 1 else 0)
      ensures blocks == old(blocks) + (if v.action.Block? then 1 else 0)
      ensures audits == old(audits) + (if v.action.Audit? then 1 else 0)
      ensures rateLimited == old(rateLimited) + (if v.rateLimited then 1 else 0)
      ensures ruleHits == old(ruleHits) + (if v.reason.RuleMatched? then 1 else 0)
      ensures defaultHits == old(defaultHits) + (if v.reason.RuleMatched? then 0 else 1)
    {
      var hit: Option<Rule> := None;
      if snap.Some? {
        hit := Scan(snap.value.rules, t);
        FirstMatchIsStrongest(snap.value.rules, t);
      }
      v := Judge(hit, snap, now);
      VerdictDecided(v, table.Map(), snap, t, now, old(table.Map()));
    }

    /** The part of SkRuleEvaluate after the scan: action, token bucket, counters. */
    method Judge(hit: Option<Rule>, snap: Option<Snapshot>, now: u64) returns (v: Verdict)
      requires Valid()
      requires hit.Some? && hit.value.action == ACTION_RATE_LIMIT ==> hit.value.rateIntervalMs > 0
      modifies this, table.slots
      ensures Valid()
      ensures (v, table.Map()) == Decide(hit, snap, now, old(table.Map()))
      ensures Answers(v, hit, snap, BucketAnswer(hit, now, old(table.Map())).0)
      ensures calls == old(calls) + 1
      ensures permits == old(permits) + (if v.action.Permit? then 1 else 0)
      ensures blocks == old(blocks) + (if v.action.Block? then 1 else 0)
      ensures audits == old(audits) + (if v.action.Audit? then 1 else 0)
      ensures rateLimited == old(rateLimited) + (if v.rateLimited then 1 else 0)
      ensures ruleHits == old(ruleHits) + (if v.reason.RuleMatched? then 1 else 0)
      ensures defaultHits == old(defaultHits) + (if v.reason.RuleMatched? then 0 else 1)
    {
      DecideAnswers(hit, snap, now, table.Map());
      calls := calls + 1;
      if hit.Some? {
        var r := hit.value;
        ruleHits := ruleHits + 1;
        v := Verdict(Permit, r.ruleId, false, false, RuleMatched);
        if r.action == ACTION_BLOCK {
          v := v.(action := Block, hardBlock := true);
        } else if r.action == ACTION_AUDIT {
          v := v.(action := Audit);
        } else if r.action == ACTION_RATE_LIMIT {
          var ok := table.TryTake(r, now);
          if ok {
            v := v.(action := Audit);
          } else {
            v := v.(action := Block, rateLimited := true, hardBlock := true);
            rateLimited := rateLimited + 1;
          }
        }
      } else {
        defaultHits := defaultHits + 1;
        v := Verdict(Permit, 0, false, false, if snap.Some? then NoMatch else SnapshotUnavailable);
        if snap.Some? && snap.value.policy == POLICY_BLOCK {
          v := v.(action := Block, hardBlock := true);
        }
      }
      match v.action
      case Block => blocks := blocks + 1;
      case Audit => audits := audits + 1;
      case Permit => permits := permits + 1;
    }
  }

  method Scan(rules: seq<Rule>, t: Tuple) returns (hit: Option<Rule>)
    ensures hit == FirstMatch(rules, t)
  {
    var i := 0;
    while i < |rules|
      invariant i <= |rules|
      invariant FirstMatch(rules, t) == FirstMatch(rules[i..], t)
    {
      if Matches(rules[i], t) {
        return Some(rules[i]);
      }
      assert rules[i..][1..] == rules[i + 1..];
      i := i + 1;
    }
    hit := None;
  }
}
