/** The writer operations of the rule store. Writers are serialized by storeLock, so each call is
    sequential; what a reader may see of it meanwhile is the subject of SnapshotProtocol. */
module RuleStore {
  import opened RuleTypes
  import opened RuleMatch
  import opened RuleOrder
  import opened RateTable
  import opened RuleEngine
  import V = StoreView

  const REPLACE_MAX_BYTES: nat := 1024 * 1024

  /** Answers from outside: the runtime gate at entry and again inside W, and the two pool blocks. */
  datatype Env = Env(activeAtEntry: bool, activeAtW: bool, arrayPool: bool, snapPool: bool)

  // ---- snapshots as maps from rule id to rule ----

  ghost function Ids(rules: seq<Rule>): set<u64> { set r | r in rules :: r.ruleId }

  ghost predicate GoodRules(rules: seq<Rule>) {
    && Ordered(rules) && UniqueIds(rules) && |rules| <= RULE_MAX
    && forall r :: r in rules ==> Accepted(r)
  }

  /** What every published snapshot is: in verdict order, one rule an id, validated, bounded. */
  ghost predicate Good(s: Snapshot) {
    GoodRules(s.rules) && (s.policy == POLICY_PERMIT || s.policy == POLICY_BLOCK)
  }

  ghost function RuleMap(rules: seq<Rule>): map<u64, Rule>
    requires UniqueIds(rules)
  {
    map r | r in rules :: r.ruleId := r
  }

  /** A good snapshot's rule sequence is determined by its map. */
  lemma MapDeterminesRules(p: seq<Rule>, q: seq<Rule>)
    requires GoodRules(p) && GoodRules(q) && RuleMap(p) == RuleMap(q)
    ensures p == q
  {
    forall r ensures r in p <==> r in q {
      assert r in p ==> RuleMap(p)[r.ruleId] == r;
      assert r in q ==> RuleMap(q)[r.ruleId] == r;
    }
    assert Elements(p) == Elements(q);
    OrderedIsCanonical(p, q);
  }

  lemma SameElementsSameMap(p: seq<Rule>, q: seq<Rule>)
    requires UniqueIds(p) && UniqueIds(q) && Elements(p) == Elements(q)
    ensures RuleMap(p) == RuleMap(q) && Ids(p) == Ids(q)
  {
    forall r ensures r in p <==> r in q {
      assert r in p <==> r in Elements(p);
      assert r in q <==> r in Elements(q);
    }
  }

  /** Sorting a valid rule list gives good rules with the same map. */
  lemma SortedIsGood(rules: seq<Rule>)
    requires UniqueIds(rules) && |rules| <= RULE_MAX && forall r :: r in rules ==> Accepted(r)
    ensures GoodRules(InsertionSort(rules))
    ensures RuleMap(InsertionSort(rules)) == RuleMap(rules) && Ids(InsertionSort(rules)) == Ids(rules)
  {
    SortOrders(rules);
    SameElementsSameMap(InsertionSort(rules), rules);
    forall r | r in InsertionSort(rules) ensures Accepted(r) {
      assert r in Elements(rules);
    }
  }

  lemma AppendMap(rules: seq<Rule>, rule: Rule)
    requires UniqueIds(rules) && rule.ruleId !in Ids(rules)
    ensures UniqueIds(rules + [rule])
    ensures RuleMap(rules + [rule]) == RuleMap(rules)[rule.ruleId := rule]
    ensures Ids(rules + [rule]) == Ids(rules) + {rule.ruleId}
  {
    forall i | 0 <= i < |rules| ensures rules[i].ruleId != rule.ruleId {
      assert rules[i] in rules;
    }
    forall r ensures r in rules + [rule] <==> r in rules || r == rule {}
  }

  lemma SetAtMap(rules: seq<Rule>, i: nat, rule: Rule)
    requires UniqueIds(rules) && i < |rules| && rules[i].ruleId == rule.ruleId
    ensures UniqueIds(rules[i := rule])
    ensures RuleMap(rules[i := rule]) == RuleMap(rules)[rule.ruleId := rule]
    ensures Ids(rules[i := rule]) == Ids(rules)
  {
    var s := rules[i := rule];
    forall r ensures r in s <==> r == rule || (r in rules && r.ruleId != rule.ruleId) {
      if r in rules && r.ruleId != rule.ruleId {
        var j :| 0 <= j < |rules| && rules[j] == r;
        assert s[j] == r;
      }
      assert s[i] == rule;
    }
  }

  lemma FoundInMap(rules: seq<Rule>, i: nat)
    requires UniqueIds(rules) && i < |rules|
    ensures rules[i].ruleId in RuleMap(rules) && RuleMap(rules)[rules[i].ruleId] == rules[i]
  {
    assert rules[i] in rules;
  }

  lemma RemoveAtGood(rules: seq<Rule>, i: nat)
    requires GoodRules(rules) && i < |rules|
    ensures GoodRules(rules[..i] + rules[i + 1..])
  {
    var s := rules[..i] + rules[i + 1..];
    forall k | 0 <= k < |s| ensures s[k] == rules[if k < i then k else k + 1] {}
  }

  lemma RemoveAtMembers(rules: seq<Rule>, i: nat, r: Rule)
    requires UniqueIds(rules) && i < |rules|
    ensures r in rules[..i] + rules[i + 1..] <==> r in rules && r.ruleId != rules[i].ruleId
  {
    var s := rules[..i] + rules[i + 1..];
    if r in s {
      var k :| 0 <= k < |s| && s[k] == r;
      assert s[k] == rules[if k < i then k else k + 1];
    }
    assert rules == rules[..i] + [rules[i]] + rules[i + 1..];
  }

  lemma RemoveAtMap(rules: seq<Rule>, i: nat)
    requires GoodRules(rules) && i < |rules|
    ensures GoodRules(rules[..i] + rules[i + 1..])
    ensures RuleMap(rules[..i] + rules[i + 1..]) == RuleMap(rules) - {rules[i].ruleId}
    ensures Ids(rules[..i] + rules[i + 1..]) == Ids(rules) - {rules[i].ruleId}
  {
    RemoveAtGood(rules, i);
    var s := rules[..i] + rules[i + 1..];
    forall r ensures r in s <==> r in rules && r.ruleId != rules[i].ruleId {
      RemoveAtMembers(rules, i, r);
    }
    MapWithout(rules, s, rules[i].ruleId);
  }

  lemma MapWithout(rules: seq<Rule>, s: seq<Rule>, id: u64)
    requires UniqueIds(rules) && UniqueIds(s)
    requires forall r :: r in s <==> r in rules && r.ruleId != id
    ensures RuleMap(s) == RuleMap(rules) - {id}
    ensures Ids(s) == Ids(rules) - {id}
  {}

  /** Changing only `enabled` leaves the verdict order alone. */
  lemma EnableKeepsOrder(rules: seq<Rule>, i: nat, on: u32)
    requires GoodRules(rules) && i < |rules| && on <= 1
    ensures GoodRules(rules[i := rules[i].(enabled := on)])
  {
    SetAtMap(rules, i, rules[i].(enabled := on));
    var s := rules[i := rules[i].(enabled := on)];
    forall r | r in s ensures Accepted(r) {
      assert r == s[i] || r in rules;
      assert rules[i] in rules;
    }
  }

  // ---- what each call must answer, and what a success must publish ----

  function PublishStatus(env: Env): Status {
    if !env.snapPool then InsufficientResources
    else if !env.activeAtW then InvalidDeviceState
    else Success
  }

  ghost function AddStatus(v: V.View, rule: Rule, env: Env): Status {
    if !Accepted(rule) then InvalidParameter
    else if v.current.None? || !env.activeAtEntry then InvalidDeviceState
    else if |v.current.value.rules| >= RULE_MAX then InsufficientResources
    else if rule.ruleId in Ids(v.current.value.rules) then ObjectIdExists
    else if !env.arrayPool then InsufficientResources
    else PublishStatus(env)
  }

  /** Delete and SetEnabled on a present id; `needsArray` is false when the result is empty. */
  ghost function EditStatus(v: V.View, ruleId: u64, needsArray: bool, env: Env): Status {
    if v.current.None? || !env.activeAtEntry then InvalidDeviceState
    else if ruleId !in Ids(v.current.value.rules) then NotFound
    else if needsArray && !env.arrayPool then InsufficientResources
    else PublishStatus(env)
  }

  ghost function UpdateStatus(v: V.View, rule: Rule, env: Env): Status {
    if !Accepted(rule) then InvalidParameter else EditStatus(v, rule.ruleId, true, env)
  }

  /** The first argument check of Replace that fails, or Success. */
  ghost function ReplaceArgs(rules: seq<Rule>): Status {
    if |rules| > RULE_MAX then InvalidParameter
    else if exists r :: r in rules && !Accepted(r) then InvalidParameter
    else if !UniqueIds(rules) then ObjectIdExists
    else Success
  }

  ghost function ReplaceStatus(v: V.View, rules: seq<Rule>, expected: u64, env: Env): Status {
    if ReplaceArgs(rules) != Success then ReplaceArgs(rules)
    else if v.current.None? || !env.activeAtEntry then InvalidDeviceState
    else if expected != 0 && v.current.value.version != expected then Retry
    else if |rules| != 0 && !env.arrayPool then InsufficientResources
    else PublishStatus(env)
  }

  ghost function RollbackStatus(v: V.View, env: Env): Status {
    if v.current.None? || !env.activeAtEntry then InvalidDeviceState
    else if v.slot.None? then NotFound
    else if |v.slot.value.rules| != 0 && !env.arrayPool then InsufficientResources
    else PublishStatus(env)
  }

  ghost function PolicyStatus(v: V.View, policy: u32, env: Env): Status {
    if policy != POLICY_PERMIT && policy != POLICY_BLOCK then InvalidParameter
    else if v.current.None? || !env.activeAtEntry then InvalidDeviceState
    else if |v.current.value.rules| != 0 && !env.arrayPool then InsufficientResources
    else PublishStatus(env)
  }

  /** Every write needs the gate open at its entry and at its W, and memory for the snapshot. */
  predicate GateOpen(v: V.View, env: Env) {
    v.current.Some? && env.activeAtEntry && env.activeAtW && env.snapPool
  }

  /** When a call on one rule succeeds, on the fields: Add needs a new id and room for one more,
      Update, Delete and SetEnabled a present one. */
  lemma RuleWritesIff(v: V.View, rule: Rule, env: Env, needsArray: bool)
    ensures AddStatus(v, rule, env) == Success <==>
      && GateOpen(v, env) && env.arrayPool && Validate(rule) == Success
      && |v.current.value.rules| < 4096 && forall q :: q in v.current.value.rules ==> q.ruleId != rule.ruleId
    ensures UpdateStatus(v, rule, env) == Success <==>
      && GateOpen(v, env) && env.arrayPool && Validate(rule) == Success
      && exists q :: q in v.current.value.rules && q.ruleId == rule.ruleId
    ensures EditStatus(v, rule.ruleId, needsArray, env) == Success <==>
      && GateOpen(v, env) && (needsArray ==> env.arrayPool)
      && exists q :: q in v.current.value.rules && q.ruleId == rule.ruleId
  {
  }

  /** The same for the calls on the whole set. */
  lemma SetWritesIff(v: V.View, rules: seq<Rule>, expected: u64, policy: u32, env: Env)
    ensures ReplaceStatus(v, rules, expected, env) == Success <==>
      && GateOpen(v, env) && (|rules| > 0 ==> env.arrayPool)
      && |rules| <= 4096 && (forall q :: q in rules ==> Validate(q) == Success) && UniqueIds(rules)
      && (expected == 0 || v.current.value.version == expected)
    ensures RollbackStatus(v, env) == Success <==>
      && GateOpen(v, env) && v.slot.Some? && (|v.slot.value.rules| > 0 ==> env.arrayPool)
    ensures PolicyStatus(v, policy, env) == Success <==>
      && GateOpen(v, env) && policy <= 1 && (|v.current.value.rules| > 0 ==> env.arrayPool)
  {
  }

  /** One publish took the view from v to v', and the new rule map is m. */
  ghost predicate Publishes(v: V.View, v': V.View, m: map<u64, Rule>, policy: u32) {
    && v.current.Some? && v'.current.Some?
    && v' == V.Publish(v, v'.current.value.rules, policy)
    && UniqueIds(v'.current.value.rules) && RuleMap(v'.current.value.rules) == m
  }

  ghost function MapOf(v: V.View): map<u64, Rule> {
    if v.current.Some? && UniqueIds(v.current.value.rules) then RuleMap(v.current.value.rules) else map[]
  }

  ghost function PolicyOf(v: V.View): u32 {
    if v.current.Some? then v.current.value.policy else POLICY_PERMIT
  }

  function Enabled(m: map<u64, Rule>, ruleId: u64, enabled: bool): map<u64, Rule> {
    if ruleId in m then m[ruleId := m[ruleId].(enabled := if enabled then 1 else 0)] else m
  }

  function CountOf(v: V.View): nat {
    if v.current.Some? then |v.current.value.rules| else 0
  }

  ghost function IdsOf(v: V.View): set<u64> {
    if v.current.Some? then Ids(v.current.value.rules) else {}
  }

  /** The store between SkRuleStoreInit and SkRuleStoreShutdown. */
  class Store {
    const engine: Engine
    var current: Option<Snapshot>
    var slot: Option<Snapshot>
    var inited: bool
    var closed: bool

    ghost function View(): V.View
      reads this
    {
      V.View(current, slot)
    }

    ghost function Buckets(): Buckets
      reads engine, engine.table, engine.table.slots
      requires engine.Valid()
    {
      engine.table.Map()
    }

    /** Every published snapshot is good, and every token bucket belongs to a current rule. */
    ghost predicate Valid()
      reads this, engine, engine.table, engine.table.slots
    {
      && engine.Valid()
      && (current.Some? <==> inited && !closed)
      && (current.None? ==> slot.None?)
      && (current.Some? ==> Good(current.value) && Buckets().Keys <= Ids(current.value.rules))
      && (slot.Some? ==> Good(slot.value))
    }

    constructor ()
      ensures Valid() && fresh(engine) && fresh(engine.table) && fresh(engine.table.slots)
      ensures View() == V.EMPTY && Buckets() == map[]
      ensures current == Some(Snapshot([], 0, POLICY_PERMIT)) && slot == None
    {
      engine := new Engine();
      current := Some(Snapshot([], 0, POLICY_PERMIT));
      slot := None;
      inited, closed := true, false;
    }

    predicate Writable(active: bool)
      reads this
    {
      inited && !closed && active
    }

    /** SkPublish. */
    method Publish(rules: seq<Rule>, policy: u32, env: Env) returns (st: Status)
      requires Valid() && current.Some? && Good(Snapshot(rules, 0, policy))
      modifies this`current, this`slot, engine.table.slots
      ensures Valid()
      ensures st == PublishStatus(env)
      ensures st == Success ==>
        && View() == V.Publish(old(View()), rules, policy)
        && Buckets() == old(Buckets()) - (old(IdsOf(View())) - Ids(rules))
      ensures st != Success ==> View() == old(View()) && Buckets() == old(Buckets())
    {
      if !env.snapPool {
        return InsufficientResources;
      }
      if !Writable(env.activeAtW) {
        return InvalidDeviceState;
      }
      var prev := current.value;
      slot := current;
      current := Some(Snapshot(rules, prev.version + 1, policy));
      ResetRemoved(engine.table, prev.rules, rules);
      st := Success;
    }

    /** A publish that drops no id leaves the buckets alone. */
    method PublishOver(rules: seq<Rule>, policy: u32, env: Env) returns (st: Status)
      requires Valid() && current.Some? && Good(Snapshot(rules, 0, policy))
      requires Ids(current.value.rules) <= Ids(rules)
      modifies this`current, this`slot, engine.table.slots
      ensures Valid() && st == PublishStatus(env)
      ensures st == Success ==> View() == V.Publish(old(View()), rules, policy)
      ensures st != Success ==> View() == old(View())
      ensures Buckets() == old(Buckets())
    {
      NothingGone(current.value.rules, rules, Buckets());
      st := Publish(rules, policy, env);
    }

    method ResetBucket(ruleId: u64)
      requires Valid()
      modifies engine.table.slots
      ensures Valid() && Buckets() == old(Buckets()) - {ruleId}
    {
      engine.table.Reset(ruleId);
    }

    /** The same, with the bucket of one id cleared after a success. */
    method PublishAfresh(rules: seq<Rule>, policy: u32, env: Env, ruleId: u64, clear: bool) returns (st: Status)
      requires Valid() && current.Some? && Good(Snapshot(rules, 0, policy))
      requires Ids(current.value.rules) <= Ids(rules)
      modifies this`current, this`slot, engine.table.slots
      ensures Valid() && st == PublishStatus(env)
      ensures st == Success ==>
        && View() == V.Publish(old(View()), rules, policy)
        && Buckets() == if clear then old(Buckets()) - {ruleId} else old(Buckets())
      ensures st != Success ==> View() == old(View()) && Buckets() == old(Buckets())
    {
      st := PublishOver(rules, policy, env);
      if st == Success && clear {
        ResetBucket(ruleId);
      }
    }

    /** SkRuleStoreAdd. A reused id starts without a bucket. */
    method Add(rule: Rule, env: Env) returns (st: Status)
      requires Valid()
      modifies this`current, this`slot, engine.table.slots
      ensures Valid()
      ensures st == AddStatus(old(View()), rule, env)
      ensures st == Success ==>
        && Publishes(old(View()), View(), old(MapOf(View()))[rule.ruleId := rule], old(PolicyOf(View())))
        && Buckets() == old(Buckets()) - {rule.ruleId}
      ensures st != Success ==> View() == old(View()) && Buckets() == old(Buckets())
    {
      if Validate(rule) != Success {
        return Validate(rule);
      }
      if !Writable(env.activeAtEntry) {
        return InvalidDeviceState;
      }
      var cur := current.value;
      if |cur.rules| >= RULE_MAX {
        return InsufficientResources;
      }
      var i := IndexOf(cur.rules, rule.ruleId);
      if i < |cur.rules| {
        return ObjectIdExists;
      }
      if !env.arrayPool {
        return InsufficientResources;
      }
      var arr := WithAppended(cur.rules, rule);
      st := PublishAfresh(arr, cur.policy, env, rule.ruleId, true);
    }

    /** SkRuleStoreUpdate. The bucket belongs to the id and is kept. */
    method Update(rule: Rule, env: Env) returns (st: Status)
      requires Valid()
      modifies this`current, this`slot, engine.table.slots
      ensures Valid()
      ensures st == UpdateStatus(old(View()), rule, env)
      ensures st == Success ==>
        Publishes(old(View()), View(), old(MapOf(View()))[rule.ruleId := rule], old(PolicyOf(View())))
      ensures st != Success ==> View() == old(View())
      ensures Buckets() == old(Buckets())
    {
      if Validate(rule) != Success {
        return Validate(rule);
      }
      if !Writable(env.activeAtEntry) {
        return InvalidDeviceState;
      }
      var cur := current.value;
      var i := IndexOf(cur.rules, rule.ruleId);
      if i == |cur.rules| {
        return NotFound;
      }
      if !env.arrayPool {
        return InsufficientResources;
      }
      var arr := WithReplaced(cur.rules, i, rule);
      st := PublishOver(arr, cur.policy, env);
    }

    /** SkRuleStoreDelete. */
    method Delete(ruleId: u64, env: Env) returns (st: Status)
      requires Valid()
      modifies this`current, this`slot, engine.table.slots
      ensures Valid()
      ensures st == EditStatus(old(View()), ruleId, old(CountOf(View())) != 1, env)
      ensures st == Success ==>
        && Publishes(old(View()), View(), old(MapOf(View())) - {ruleId}, old(PolicyOf(View())))
        && Buckets() == old(Buckets()) - {ruleId}
      ensures st != Success ==> View() == old(View()) && Buckets() == old(Buckets())
    {
      if !Writable(env.activeAtEntry) {
        return InvalidDeviceState;
      }
      var cur := current.value;
      var n := |cur.rules|;
      var i := IndexOf(cur.rules, ruleId);
      if i == n {
        return NotFound;
      }
      if n != 1 && !env.arrayPool {
        return InsufficientResources;
      }
      var arr := Without(cur.rules, i);
      st := Publish(arr, cur.policy, env);
    }

    /** SkRuleStoreSetEnabled. Disabling clears the bucket. */
    method SetEnabled(ruleId: u64, enabled: bool, env: Env) returns (st: Status)
      requires Valid()
      modifies this`current, this`slot, engine.table.slots
      ensures Valid()
      ensures st == EditStatus(old(View()), ruleId, true, env)
      ensures st == Success ==>
        && Publishes(old(View()), View(), Enabled(old(MapOf(View())), ruleId, enabled), old(PolicyOf(View())))
        && var m := old(MapOf(View()));
        && ruleId in m && MapOf(View()) == m[ruleId := m[ruleId].(enabled := if enabled then 1 else 0)]
        && Buckets() == if enabled then old(Buckets()) else old(Buckets()) - {ruleId}
      ensures st != Success ==> View() == old(View()) && Buckets() == old(Buckets())
    {
      if !Writable(env.activeAtEntry) {
        return InvalidDeviceState;
      }
      var cur := current.value;
      var i := IndexOf(cur.rules, ruleId);
      if i == |cur.rules| {
        return NotFound;
      }
      if !env.arrayPool {
        return InsufficientResources;
      }
      var arr := WithEnabled(cur.rules, i, enabled);
      st := PublishAfresh(arr, cur.policy, env, ruleId, !enabled);
    }

    /** SkRuleStoreReplace; `expected` is 0 for an unconditional replace. */
    method Replace(rules: seq<Rule>, expected: u64, env: Env) returns (st: Status)
      requires Valid()
      modifies this`current, this`slot, engine.table.slots
      ensures Valid()
      ensures st == ReplaceStatus(old(View()), rules, expected, env)
      ensures st == Success ==>
        && UniqueIds(rules)
        && Publishes(old(View()), View(), RuleMap(rules), old(PolicyOf(View())))
        && Buckets() == old(Buckets()) - (old(IdsOf(View())) - Ids(rules))
      ensures st != Success ==> View() == old(View()) && Buckets() == old(Buckets())
    {
      st := CheckReplace(rules);
      if st != Success {
        return;
      }
      if !Writable(env.activeAtEntry) {
        return InvalidDeviceState;
      }
      if expected != 0 && current.value.version != expected {
        return Retry;
      }
      var arr: seq<Rule> := [];
      if |rules| != 0 {
        if !env.arrayPool {
          return InsufficientResources;
        }
        arr := SortedArray(rules);
      }
      SortedIsGood(rules);
      assert arr == InsertionSort(rules);
      st := Publish(arr, current.value.policy, env);
    }

    /** SkRuleStoreClear. */
    method Clear(env: Env) returns (st: Status)
      requires Valid()
      modifies this`current, this`slot, engine.table.slots
      ensures Valid()
      ensures st == if old(current).None? || !env.activeAtEntry then InvalidDeviceState else PublishStatus(env)
      ensures st == Success ==>
        Publishes(old(View()), View(), map[], old(PolicyOf(View()))) && Buckets() == map[]
      ensures st != Success ==> View() == old(View()) && Buckets() == old(Buckets())
    {
      if !Writable(env.activeAtEntry) {
        return InvalidDeviceState;
      }
      st := Publish([], current.value.policy, env);
      if st == Success {
        assert Ids([]) == {};
        assert Buckets().Keys == {};
      }
    }

    /** SkRuleStoreRollback: the slot's content is republished and the slot consumed. */
    method Rollback(env: Env) returns (st: Status)
      requires Valid()
      modifies this`current, this`slot, engine.table.slots
      ensures Valid()
      ensures st == RollbackStatus(old(View()), env)
      ensures st == Success ==>
        && View() == V.Rollback(old(View()))
        && Buckets() == old(Buckets()) - (old(IdsOf(View())) - IdsOf(View()))
      ensures st != Success ==> View() == old(View()) && Buckets() == old(Buckets())
    {
      if !Writable(env.activeAtEntry) {
        return InvalidDeviceState;
      }
      if slot.None? {
        return NotFound;
      }
      var rb := slot.value;
      if |rb.rules| != 0 && !env.arrayPool {
        return InsufficientResources;
      }
      if !env.snapPool {
        return InsufficientResources;
      }
      if !Writable(env.activeAtW) {
        return InvalidDeviceState;
      }
      var prev := current.value;
      slot := None;
      current := Some(Snapshot(rb.rules, prev.version + 1, rb.policy));
      ResetRemoved(engine.table, prev.rules, rb.rules);
      st := Success;
    }

    /** SkRuleStoreSetDefaultPolicy. */
    method SetDefaultPolicy(policy: u32, env: Env) returns (st: Status)
      requires Valid()
      modifies this`current, this`slot, engine.table.slots
      ensures Valid()
      ensures st == PolicyStatus(old(View()), policy, env)
      ensures st == Success ==> Publishes(old(View()), View(), old(MapOf(View())), policy)
      ensures st != Success ==> View() == old(View())
      ensures Buckets() == old(Buckets())
    {
      if policy != POLICY_PERMIT && policy != POLICY_BLOCK {
        return InvalidParameter;
      }
      if !Writable(env.activeAtEntry) {
        return InvalidDeviceState;
      }
      var cur := current.value;
      if |cur.rules| != 0 && !env.arrayPool {
        return InsufficientResources;
      }
      st := Publish(cur.rules, policy, env);
    }

    /** One classify call, atomic against the writers. */
    method Classify(t: Tuple, now: u64) returns (v: Verdict)
      requires Valid()
      modifies engine, engine.table.slots
      ensures Valid()
      ensures Evaluable(old(current)) && IsVerdict(v, Buckets(), old(current), t, now, old(Buckets()))
      ensures Decided(v, Buckets(), old(current), t, now, old(Buckets()))
    {
      assert current.Some? ==> forall r :: r in current.value.rules ==> Accepted(r);
      v := engine.Evaluate(current, t, now);
      DecidedKeysStay(v, Buckets(), current, t, now, old(Buckets()));
    }

    /** The shutdown W: readers and writers find nothing afterwards. */
    method Shutdown()
      requires Valid()
      modifies this
      ensures Valid() && View() == V.CLOSED
    {
      closed := true;
      current := None;
      slot := None;
    }
  }

  /** SkRateResetRemoved: clear the bucket of every rule that is gone. */
  method ResetRemoved(table: Table, was: seq<Rule>, now: seq<Rule>)
    requires table.Valid()
    modifies table.slots
    ensures table.Valid() && table.Map() == old(table.Map()) - (Ids(was) - Ids(now))
  {
    var i := 0;
    ghost var m := table.Map();
    while i < |was|
      invariant i <= |was| && table.Valid()
      invariant table.Map() == m - Gone(was[..i], now)
    {
      GoneStep(was, now, i, m);
      var j := IndexOf(now, was[i].ruleId);
      if j == |now| {
        table.Reset(was[i].ruleId);
      }
      i := i + 1;
    }
    assert was[..i] == was;
  }

  ghost function Gone(was: seq<Rule>, now: seq<Rule>): set<u64> { Ids(was) - Ids(now) }

  lemma GoneStep(was: seq<Rule>, now: seq<Rule>, i: nat, m: Buckets)
    requires i < |was|
    ensures var id := was[i].ruleId;
      m - Gone(was[..i + 1], now)
      == if id in Ids(now) then m - Gone(was[..i], now) else m - Gone(was[..i], now) - {id}
  {
    IdsStep(was, i);
    var id := was[i].ruleId;
    assert Gone(was[..i + 1], now) == Gone(was[..i], now) + if id in Ids(now) then {} else {id};
  }

  lemma IdsStep(rules: seq<Rule>, i: nat)
    requires i < |rules|
    ensures Ids(rules[..i + 1]) == Ids(rules[..i]) + {rules[i].ruleId}
  {
    assert rules[..i + 1] == rules[..i] + [rules[i]];
    forall id ensures id in Ids(rules[..i + 1]) <==> id in Ids(rules[..i]) || id == rules[i].ruleId {
      assert rules[i] in rules[..i + 1];
      if id in Ids(rules[..i]) {
        var r :| r in rules[..i] && r.ruleId == id;
        assert r in rules[..i + 1];
      }
    }
  }

  /** The linear search every writer starts with; |rules| when the id is absent. */
  method IndexOf(rules: seq<Rule>, id: u64) returns (i: nat)
    ensures i <= |rules|
    ensures i == |rules| <==> id !in Ids(rules)
    ensures i < |rules| ==> rules[i].ruleId == id
  {
    i := 0;
    while i < |rules| && rules[i].ruleId != id
      invariant i <= |rules|
      invariant forall k :: 0 <= k < i ==> rules[k].ruleId != id
    {
      i := i + 1;
    }
    assert i < |rules| ==> rules[i] in rules;
  }

  /** Evaluating a good snapshot adds no bucket but one of its own rules'. */
  lemma DecidedKeysStay(v: Verdict, m': Buckets, snap: Option<Snapshot>, t: Tuple, now: u64, m: Buckets)
    requires Evaluable(snap) && IsVerdict(v, m', snap, t, now, m)
    ensures snap.Some? && m.Keys <= Ids(snap.value.rules) ==> m'.Keys <= Ids(snap.value.rules)
  {
    if snap.Some? && m.Keys <= Ids(snap.value.rules) {
      forall id | id in m' ensures id in Ids(snap.value.rules) {
        if r :| Strongest(r, Elements(snap.value.rules), t) && (v, m') == Decide(Some(r), snap, now, m) {
          if id != r.ruleId {
            DecideTouchesOnlyHit(Some(r), snap, now, m, id);
          }
          assert r in snap.value.rules;
        }
      }
    }
  }

  lemma NothingGone(was: seq<Rule>, now: seq<Rule>, m: Buckets)
    requires Ids(was) <= Ids(now)
    ensures m - (Ids(was) - Ids(now)) == m
  {
    assert Ids(was) - Ids(now) == {};
  }

  // ---- the new rule arrays ----

  method WithAppended(rules: seq<Rule>, rule: Rule) returns (arr: seq<Rule>)
    requires GoodRules(rules) && |rules| < RULE_MAX && Accepted(rule) && rule.ruleId !in Ids(rules)
    ensures GoodRules(arr) && RuleMap(arr) == RuleMap(rules)[rule.ruleId := rule]
    ensures Ids(arr) == Ids(rules) + {rule.ruleId}
  {
    arr := SortedArray(rules + [rule]);
    AppendMap(rules, rule);
    SortedIsGood(rules + [rule]);
  }

  method WithReplaced(rules: seq<Rule>, i: nat, rule: Rule) returns (arr: seq<Rule>)
    requires GoodRules(rules) && i < |rules| && Accepted(rule) && rules[i].ruleId == rule.ruleId
    ensures GoodRules(arr) && RuleMap(arr) == RuleMap(rules)[rule.ruleId := rule]
    ensures Ids(arr) == Ids(rules)
  {
    arr := SortedArray(rules[i := rule]);
    SetAtMap(rules, i, rule);
    SortedIsGood(rules[i := rule]);
  }

  /** A delete keeps the order, so there is no sort. */
  method Without(rules: seq<Rule>, i: nat) returns (arr: seq<Rule>)
    requires GoodRules(rules) && i < |rules|
    ensures GoodRules(arr) && RuleMap(arr) == RuleMap(rules) - {rules[i].ruleId}
    ensures Ids(rules) - Ids(arr) == {rules[i].ruleId}
  {
    arr := rules[..i] + rules[i + 1..];
    RemoveAtMap(rules, i);
    assert rules[i] in rules;
  }

  /** Enabling or disabling keeps the order too. */
  method WithEnabled(rules: seq<Rule>, i: nat, enabled: bool) returns (arr: seq<Rule>)
    requires GoodRules(rules) && i < |rules|
    ensures GoodRules(arr) && RuleMap(arr) == Enabled(RuleMap(rules), rules[i].ruleId, enabled)
    ensures Ids(arr) == Ids(rules)
  {
    var changed := rules[i].(enabled := if enabled then 1 else 0);
    arr := rules[i := changed];
    assert rules[i] in rules && RuleMap(rules)[changed.ruleId] == rules[i];
    EnableKeepsOrder(rules, i, changed.enabled);
    SetAtMap(rules, i, changed);
  }

  /** Copy to a new array and sort it in place. */
  method SortedArray(rules: seq<Rule>) returns (r: seq<Rule>)
    ensures r == InsertionSort(rules)
  {
    var a := new Rule[|rules|](i requires 0 <= i < |rules| => rules[i]);
    assert a[..] == rules;
    SortRules(a);
    r := a[..];
  }

  /** Replace's checks: size, every rule valid, ids pairwise distinct. */
  method CheckReplace(rules: seq<Rule>) returns (st: Status)
    ensures st == ReplaceArgs(rules)
  {
    if |rules| > RULE_MAX || |rules| * RULE_BYTES > REPLACE_MAX_BYTES {
      return InvalidParameter;
    }
    var i := 0;
    while i < |rules|
      invariant i <= |rules|
      invariant forall k :: 0 <= k < i ==> Accepted(rules[k])
    {
      if Validate(rules[i]) != Success {
        assert rules[i] in rules && !Accepted(rules[i]);
        return Validate(rules[i]);
      }
      i := i + 1;
    }
    i := 0;
    while i < |rules|
      invariant i <= |rules|
      invariant forall k, l :: 0 <= k < i && k < l < |rules| ==> rules[k].ruleId != rules[l].ruleId
    {
      var j := i + 1;
      while j < |rules|
        invariant i < j <= |rules|
        invariant forall l :: i < l < j ==> rules[i].ruleId != rules[l].ruleId
      {
        if rules[i].ruleId == rules[j].ruleId {
          return ObjectIdExists;
        }
        j := j + 1;
      }
      i := i + 1;
    }
    st := Success;
  }

  // ---- over any sequence of publishes and rollbacks ----

  datatype Write = Pub(rules: seq<Rule>, policy: u32) | Roll

  /** The view after a sequence of successful writes; a rollback without a slot is not one. */
  function After(v: V.View, ws: seq<Write>): V.View
    requires v.current.Some?
    ensures After(v, ws).current.Some?
  {
    if |ws| == 0 then v else
      Wrote(After(v, ws[..|ws| - 1]), ws[|ws| - 1])
  }

  function Wrote(u: V.View, w: Write): (r: V.View)
    requires u.current.Some?
    ensures r.current.Some?
  {
    match w
    case Pub(rules, policy) => V.Publish(u, rules, policy)
    case Roll => if u.slot.Some? then V.Rollback(u) else u
  }

  lemma AfterOneMore(v: V.View, ws: seq<Write>, w: Write)
    requires v.current.Some?
    ensures After(v, ws + [w]) == Wrote(After(v, ws), w)
  {
    assert (ws + [w])[..|ws|] == ws;
  }

  function Count(v: V.View, ws: seq<Write>): nat
    requires v.current.Some?
  {
    if |ws| == 0 then 0 else
      Count(v, ws[..|ws| - 1])
      + if ws[|ws| - 1].Roll? && After(v, ws[..|ws| - 1]).slot.None? then 0 else 1
  }

  /** The version counts the successful writes exactly. */
  lemma {:induction false} VersionCountsWrites(v: V.View, ws: seq<Write>)
    requires v.current.Some?
    ensures After(v, ws).current.value.version == v.current.value.version + Count(v, ws)
  {
    if |ws| > 0 {
      VersionCountsWrites(v, ws[..|ws| - 1]);
    }
  }

  /** A Replace conditional on the version of v, after any writes: once its arguments and the gate
      pass, it conflicts iff something was written since v; otherwise it is an unconditional one. */
  lemma ConditionalReplaceIff(v: V.View, ws: seq<Write>, rules: seq<Rule>, env: Env)
    requires v.current.Some? && 0 < v.current.value.version < TWO_64
    ensures var u := After(v, ws);
      ReplaceStatus(u, rules, v.current.value.version, env) ==
        if ReplaceArgs(rules) == Success && env.activeAtEntry && Count(v, ws) > 0 then Retry
        else ReplaceStatus(u, rules, 0, env)
  {
    VersionCountsWrites(v, ws);
  }

  /** After any writes, one more write undone by a rollback: the rules and policy are what they were,
      at version + 2, and a second rollback has nothing to go back to. */
  lemma RollbackUndoesWrite(v: V.View, ws: seq<Write>, rules: seq<Rule>, policy: u32, env: Env)
    requires v.current.Some?
    ensures var u := After(v, ws);
      var w := After(v, ws + [Pub(rules, policy)] + [Roll]);
      && w.current == Some(u.current.value.(version := u.current.value.version + 2))
      && RollbackStatus(w, env) == (if env.activeAtEntry then NotFound else InvalidDeviceState)
  {
    AfterOneMore(v, ws, Pub(rules, policy));
    AfterOneMore(v, ws + [Pub(rules, policy)], Roll);
  }
}
