/** Writers and classify calls on one store, on every schedule: each writer call takes effect at one
    instant as its operation on the snapshot then current, every published snapshot is good, and a
    classify call is decided by the strongest rule of the snapshot current when it acquired. */
module ClassifyRun {
  import opened RuleTypes
  import opened RuleMatch
  import opened RuleOrder
  import opened RuleEngine
  import opened RuleStore
  import V = StoreView
  import P = SnapshotProtocol

  // ---- the writer calls, and the list each one publishes ----

  datatype Ask =
    | Add(rule: Rule) | Update(rule: Rule) | Delete(id: u64) | Enable(id: u64, on: bool)
    | Replace(rules: seq<Rule>, expected: u64) | Clear | SetPolicy(policy: u32)

  /** The position of an id, or the length. */
  function Find(rules: seq<Rule>, id: u64): (i: nat)
    ensures i <= |rules| && (i < |rules| ==> rules[i].ruleId == id)
    ensures i == |rules| <==> id !in Ids(rules)
  {
    if |rules| == 0 then 0
    else if rules[0].ruleId == id then assert rules[0] in rules; 0
    else
      assert rules == [rules[0]] + rules[1..];
      1 + Find(rules[1..], id)
  }

  /** What a call asks the store to publish, given the current snapshot; None when it is refused. */
  ghost function Computed(ask: Ask, c: Snapshot): Option<(seq<Rule>, u32)> {
    match ask
    case Add(r) =>
      if Accepted(r) && |c.rules| < RULE_MAX && Find(c.rules, r.ruleId) == |c.rules| then
        Some((InsertionSort(c.rules + [r]), c.policy))
      else None
    case Update(r) =>
      var i := Find(c.rules, r.ruleId);
      if Accepted(r) && i < |c.rules| then Some((InsertionSort(c.rules[i := r]), c.policy)) else None
    case Delete(id) =>
      var i := Find(c.rules, id);
      if i < |c.rules| then Some((c.rules[..i] + c.rules[i + 1..], c.policy)) else None
    case Enable(id, on) =>
      var i := Find(c.rules, id);
      if i < |c.rules| then Some((c.rules[i := c.rules[i].(enabled := if on then 1 else 0)], c.policy)) else None
    case Replace(rules, expected) =>
      if ReplaceArgs(rules) == Success && (expected == 0 || c.version == expected) then
        Some((InsertionSort(rules), c.policy))
      else None
    case Clear => Some(([], c.policy))
    case SetPolicy(policy) =>
      if policy == POLICY_PERMIT || policy == POLICY_BLOCK then Some((c.rules, policy)) else None
  }

  /** The same call as the sequential store answers it. */
  ghost function StatusOf(ask: Ask, v: V.View, env: Env): Status {
    match ask
    case Add(r) => AddStatus(v, r, env)
    case Update(r) => UpdateStatus(v, r, env)
    case Delete(id) => EditStatus(v, id, CountOf(v) != 1, env)
    case Enable(id, _) => EditStatus(v, id, true, env)
    case Replace(rules, expected) => ReplaceStatus(v, rules, expected, env)
    case Clear => if v.current.None? || !env.activeAtEntry then InvalidDeviceState else PublishStatus(env)
    case SetPolicy(policy) => PolicyStatus(v, policy, env)
  }

  /** The map and policy the sequential store promises for it. */
  ghost function MapAfter(ask: Ask, m: map<u64, Rule>): map<u64, Rule> {
    match ask
    case Add(r) => m[r.ruleId := r]
    case Update(r) => m[r.ruleId := r]
    case Delete(id) => m - {id}
    case Enable(id, on) => Enabled(m, id, on)
    case Replace(rules, _) => if UniqueIds(rules) then RuleMap(rules) else m
    case Clear => map[]
    case SetPolicy(_) => m
  }

  const EASY: Env := Env(true, true, true, true)

  /** A call computes a list exactly when the store would accept it, given memory and an open gate. */
  lemma ComputedIffAccepted(ask: Ask, c: Snapshot, slot: Option<Snapshot>)
    ensures Computed(ask, c).Some? <==> StatusOf(ask, V.View(Some(c), slot), EASY) == Success
  {
  }

  lemma AddedIsGood(c: Snapshot, r: Rule)
    requires Good(c) && Accepted(r) && |c.rules| < RULE_MAX && r.ruleId !in Ids(c.rules)
    ensures var rules := InsertionSort(c.rules + [r]);
      GoodRules(rules) && RuleMap(rules) == RuleMap(c.rules)[r.ruleId := r]
  {
    AppendMap(c.rules, r);
    forall q | q in c.rules + [r] ensures Accepted(q) { assert q == r || q in c.rules; }
    SortedIsGood(c.rules + [r]);
  }

  lemma UpdatedIsGood(c: Snapshot, r: Rule)
    requires Good(c) && Accepted(r) && r.ruleId in Ids(c.rules)
    ensures var rules := InsertionSort(c.rules[Find(c.rules, r.ruleId) := r]);
      GoodRules(rules) && RuleMap(rules) == RuleMap(c.rules)[r.ruleId := r]
  {
    var i := Find(c.rules, r.ruleId);
    SetAtMap(c.rules, i, r);
    forall q | q in c.rules[i := r] ensures Accepted(q) { assert q == r || q in c.rules; }
    SortedIsGood(c.rules[i := r]);
  }

  lemma EnabledAtIsGood(rules: seq<Rule>, i: nat, on: bool)
    requires GoodRules(rules) && i < |rules|
    ensures var now := rules[i := rules[i].(enabled := if on then 1 else 0)];
      GoodRules(now) && RuleMap(now) == Enabled(RuleMap(rules), rules[i].ruleId, on)
  {
    EnableKeepsOrder(rules, i, if on then 1 else 0);
    SetAtMap(rules, i, rules[i].(enabled := if on then 1 else 0));
    FoundInMap(rules, i);
  }

  lemma EnabledIsGood(c: Snapshot, id: u64, on: bool)
    requires Good(c) && id in Ids(c.rules)
    ensures var i := Find(c.rules, id);
      var rules := c.rules[i := c.rules[i].(enabled := if on then 1 else 0)];
      GoodRules(rules) && RuleMap(rules) == Enabled(RuleMap(c.rules), id, on)
  {
    EnabledAtIsGood(c.rules, Find(c.rules, id), on);
  }

  lemma DeletedIsGood(c: Snapshot, id: u64)
    requires Good(c) && id in Ids(c.rules)
    ensures var i := Find(c.rules, id);
      var rules := c.rules[..i] + c.rules[i + 1..];
      GoodRules(rules) && RuleMap(rules) == RuleMap(c.rules) - {id}
  {
    RemoveAtMap(c.rules, Find(c.rules, id));
  }

  /** From a good snapshot the list is good again and is the store's map operation. */
  lemma ComputedIsGood(ask: Ask, c: Snapshot)
    requires Good(c) && Computed(ask, c).Some?
    ensures var (rules, policy) := Computed(ask, c).value;
      && Good(Snapshot(rules, 0, policy))
      && RuleMap(rules) == MapAfter(ask, RuleMap(c.rules))
      && policy == (if ask.SetPolicy? then ask.policy else c.policy)
  {
    match ask
    case Add(r) => AddedIsGood(c, r);
    case Replace(rules, _) => SortedIsGood(rules);
    case Update(r) => UpdatedIsGood(c, r);
    case Delete(id) => DeletedIsGood(c, id);
    case Enable(id, on) => EnabledIsGood(c, id, on);
    case Clear =>
    case SetPolicy(_) =>
  }

  // ---- runs ----

  /** A writer call at its lock, or any other step of the protocol. */
  datatype Move = Write(ask: Ask) | Other(e: P.Event)

  ghost function EventOf(s: P.State, m: Move): Option<P.Event> {
    match m
    case Other(e) => if e.Lock? then None else Some(e)
    case Write(ask) =>
      var v := P.ViewOf(s);
      if v.current.None? || Computed(ask, v.current.value).None? then None
      else Some(P.Lock(Computed(ask, v.current.value).value.0, Computed(ask, v.current.value).value.1))
  }

  /** A refused call changes nothing; an accepted one enters with the list it computes. */
  ghost function Step(s: P.State, m: Move): P.State {
    if EventOf(s, m).None? then s else P.Next(s, EventOf(s, m).value)
  }

  ghost function Run(s: P.State, ms: seq<Move>): P.State {
    if |ms| == 0 then s else Step(Run(s, ms[..|ms| - 1]), ms[|ms| - 1])
  }

  ghost predicate Pending(w: P.Writer) { (w.Entered? || w.Draining?) && w.op.Publish? }

  /** What the waiting writer is about to publish is good. */
  ghost predicate PendingIsGood(s: P.State) {
    Pending(s.writer) ==> Good(Snapshot(s.writer.op.rules, 0, s.writer.op.policy))
  }

  ghost predicate GoodView(v: V.View) {
    && (v.current.Some? ==> Good(v.current.value))
    && (v.slot.Some? ==> Good(v.slot.value))
  }

  ghost predicate RunOk(s: P.State) {
    P.Inv(s) && P.DraftOk(s) && PendingIsGood(s) && GoodView(P.ViewOf(s))
  }

  // ---- writer calls are atomic ----

  /** No lost update: between a writer's lock and its W nothing moves the published view. */
  lemma ViewStillWhilePending(s: P.State, e: P.Event)
    requires P.Inv(s) && P.DraftOk(s) && (s.writer.Entered? || s.writer.Draining?) && !P.Commits(s, e)
    ensures P.ViewOf(P.Next(s, e)) == P.ViewOf(s)
  {
    P.NextRefinesView(s, e);
  }

  /** A pending list comes from a lock and stays the same list. */
  lemma PendingOrigin(s: P.State, e: P.Event)
    requires P.Inv(s) && Pending(P.Next(s, e).writer)
    ensures (e.Lock? && s.writer == P.Unlocked)
         || (Pending(s.writer) && P.Next(s, e).writer.op == s.writer.op && !P.Commits(s, e))
  {
    if P.Quiet(e) {
      P.QuietFrame(s, e);
    } else if e.Acquire? || e.Release? {
      P.ReaderKeepsWriter(s, e);
    } else if e.ShutSwap? {
      P.ShutSwapView(s);
    } else if e.Swap? {
      SwapEndsPending(s);
    } else if e.Alloc? || e.Scan? || e.FreeDrained? {
    } else {
      assert P.Next(s, e).writer == s.writer || !Pending(P.Next(s, e).writer);
    }
  }

  lemma SwapEndsPending(s: P.State)
    requires P.Inv(s) && Pending(P.SwapStep(s).writer)
    ensures P.SwapStep(s).writer == s.writer && !P.Commits(s, P.Swap)
  {
    if s.writer.Draining? && s.writer.drained == {} {
      P.SwapLeaves(s);
      SwapNotEntered(s);
    }
  }

  lemma SwapNotEntered(s: P.State)
    requires P.Inv(s)
    ensures P.SwapStep(s).writer == s.writer || !P.SwapStep(s).writer.Entered?
  {
    if s.writer.Draining? && s.writer.drained == {} && P.Writable(s) && s.current.Some?
       && s.current.value in s.heap && s.writer.made in s.heap {
      var prev, made := s.current.value, s.writer.made;
      var s1 := P.Install(s, prev, made);
      match s.writer.op
      case Publish(_, _) => P.RetireOptPointers(s1.(slot := Some(prev)), s.slot);
      case Rollback(rb) =>
    }
  }

  lemma StepKeepsPending(s: P.State, m: Move)
    requires RunOk(s)
    ensures PendingIsGood(Step(s, m))
  {
    var e := EventOf(s, m);
    if e.Some? && Pending(P.Next(s, e.value).writer) {
      PendingOrigin(s, e.value);
      if e.value.Lock? && s.writer == P.Unlocked {
        ComputedIsGood(m.ask, P.ViewOf(s).current.value);
      }
    }
  }

  lemma GoodAgain(c: Snapshot, version: nat)
    requires Good(c)
    ensures Good(c.(version := version))
  {
  }

  lemma NextKeepsView(s: P.State, e: P.Event)
    requires RunOk(s)
    ensures GoodView(P.ViewOf(P.Next(s, e)))
  {
    P.NextRefinesView(s, e);
    var v := P.ViewOf(s);
    if P.Commits(s, e) {
      if s.writer.op.Publish? {
        GoodAgain(Snapshot(s.writer.op.rules, 0, s.writer.op.policy), v.current.value.version + 1);
      } else {
        GoodAgain(v.slot.value, v.current.value.version + 1);
      }
    }
  }

  lemma StepKeepsOk(s: P.State, m: Move)
    requires RunOk(s)
    ensures RunOk(Step(s, m))
  {
    var e := EventOf(s, m);
    if e.Some? {
      P.NextKeepsInv(s, e.value);
      P.NextKeepsDraft(s, e.value);
      NextKeepsView(s, e.value);
      StepKeepsPending(s, m);
    }
  }

  lemma {:induction false} RunKeepsOk(s: P.State, ms: seq<Move>)
    requires RunOk(s)
    ensures RunOk(Run(s, ms))
  {
    if |ms| > 0 {
      RunKeepsOk(s, ms[..|ms| - 1]);
      StepKeepsOk(Run(s, ms[..|ms| - 1]), ms[|ms| - 1]);
    }
  }

  /** Every snapshot published on any schedule of writer calls, rollbacks, readers, scans and
      shutdown is in verdict order, with unique ids, validated and bounded. */
  lemma PublishedIsGood(ms: seq<Move>)
    ensures RunOk(Run(P.INITIAL, ms))
  {
    P.NoUseAfterFree([]);
    RunKeepsOk(P.INITIAL, ms);
  }

  // ---- every writer call takes effect at one instant ----

  /** The writer that is pending at s' entered with this call, and the view has not moved since it
      took the lock at s: its list is what the call computes from the snapshot current now. */
  ghost predicate SameCall(s: P.State, ask: Ask, s': P.State) {
    && Pending(s'.writer)
    && P.ViewOf(s') == P.ViewOf(s) && P.ViewOf(s').current.Some?
    && Computed(ask, P.ViewOf(s').current.value) == Some((s'.writer.op.rules, s'.writer.op.policy))
  }

  /** Pending after every prefix of the moves. */
  ghost predicate StaysPending(s: P.State, ms: seq<Move>) {
    Pending(Run(s, ms).writer) && (|ms| > 0 ==> StaysPending(s, ms[..|ms| - 1]))
  }

  lemma CallEnters(s: P.State, ask: Ask)
    requires RunOk(s) && s.writer == P.Unlocked
    requires EventOf(s, Write(ask)).Some? && Pending(Step(s, Write(ask)).writer)
    ensures SameCall(s, ask, Step(s, Write(ask)))
  {
    P.NextRefinesView(s, EventOf(s, Write(ask)).value);
  }

  lemma CallWaits(s: P.State, ask: Ask, u: P.State, m: Move)
    requires RunOk(u) && SameCall(s, ask, u) && Pending(Step(u, m).writer)
    ensures SameCall(s, ask, Step(u, m))
  {
    var e := EventOf(u, m);
    if e.Some? {
      PendingOrigin(u, e.value);
      ViewStillWhilePending(u, e.value);
    }
  }

  /** From its lock on, whatever else runs: as long as the call is pending, the writer's list is what
      this call computes from the snapshot current at any of those moments. */
  lemma {:induction false} CallStaysItself(s: P.State, ask: Ask, ms: seq<Move>)
    requires RunOk(s) && s.writer == P.Unlocked && EventOf(s, Write(ask)).Some?
    requires StaysPending(Step(s, Write(ask)), ms)
    ensures SameCall(s, ask, Run(Step(s, Write(ask)), ms))
  {
    if |ms| == 0 {
      CallEnters(s, ask);
    } else {
      var before := ms[..|ms| - 1];
      CallStaysItself(s, ask, before);
      StepKeepsOk(s, Write(ask));
      RunKeepsOk(Step(s, Write(ask)), before);
      CallWaits(s, ask, Run(Step(s, Write(ask)), before), ms[|ms| - 1]);
    }
  }

  lemma EntersOrWaits(u: P.State, m: Move)
    requires RunOk(u) && Pending(Step(u, m).writer)
    ensures (m.Write? && u.writer == P.Unlocked && SameCall(u, m.ask, Step(u, m))) || Pending(u.writer)
  {
    var e := EventOf(u, m);
    if e.Some? {
      PendingOrigin(u, e.value);
      if e.value.Lock? && u.writer == P.Unlocked { CallEnters(u, m.ask); }
    }
  }

  /** On every schedule a pending writer is one of the calls of that schedule: the i-th move, which
      took the lock. */
  lemma {:induction false} PendingHasItsCall(ms: seq<Move>) returns (i: nat)
    requires Pending(Run(P.INITIAL, ms).writer)
    ensures i < |ms| && ms[i].Write? && Run(P.INITIAL, ms[..i]).writer == P.Unlocked
    ensures SameCall(Run(P.INITIAL, ms[..i]), ms[i].ask, Run(P.INITIAL, ms))
    ensures forall j :: i < j <= |ms| ==> Pending(Run(P.INITIAL, ms[..j]).writer)
  {
    var before, m := ms[..|ms| - 1], ms[|ms| - 1];
    var u := Run(P.INITIAL, before);
    assert ms[..|ms|] == ms;
    PublishedIsGood(before);
    EntersOrWaits(u, m);
    if Pending(u.writer) {
      i := PendingHasItsCall(before);
      CallWaits(Run(P.INITIAL, before[..i]), ms[i].ask, u, m);
      forall j | i < j <= |ms| ensures Pending(Run(P.INITIAL, ms[..j]).writer) {
        if j < |ms| { assert ms[..j] == before[..j]; }
      }
      assert ms[..i] == before[..i];
    } else {
      i := |before|;
    }
  }

  /** On every schedule, a W that publishes performs in one instant the operation of the very call
      that took the lock, computed from the snapshot current at that instant; no update is lost. */
  lemma CommitIsTheOperation(ms: seq<Move>, e: P.Event) returns (i: nat)
    requires var s := Run(P.INITIAL, ms);
      P.Commits(s, e) && s.writer.op.Publish?
    ensures var s := Run(P.INITIAL, ms);
      s.inited && !s.closed && s.active
    ensures i < |ms| && ms[i].Write? && Run(P.INITIAL, ms[..i]).writer == P.Unlocked
    ensures forall j :: i < j <= |ms| ==> Pending(Run(P.INITIAL, ms[..j]).writer)
    ensures var v, ask := P.ViewOf(Run(P.INITIAL, ms)), ms[i].ask;
      && v.current.Some? && Good(v.current.value) && Computed(ask, v.current.value).Some?
      && var (rules, policy) := Computed(ask, v.current.value).value;
      && P.ViewOf(P.Next(Run(P.INITIAL, ms), e)) == V.Publish(v, rules, policy)
      && Good(Snapshot(rules, 0, policy)) && RuleMap(rules) == MapAfter(ask, RuleMap(v.current.value.rules))
  {
    var s := Run(P.INITIAL, ms);
    PublishedIsGood(ms);
    i := PendingHasItsCall(ms);
    P.NextRefinesView(s, e);
    ComputedIsGood(ms[i].ask, P.ViewOf(s).current.value);
  }

  // ---- classify ----

  lemma {:induction false} HeldThroughRun(s: P.State, t: P.Reader, ms: seq<Move>)
    requires RunOk(s) && t in s.holds && s.holds[t] in s.heap
    requires forall i :: 0 <= i < |ms| ==> ms[i] != Other(P.Release(t))
    ensures var s' := Run(s, ms);
      && t in s'.holds && s'.holds[t] == s.holds[t] && s'.holds[t] in s'.heap
      && s'.heap[s'.holds[t]].content == s.heap[s.holds[t]].content
  {
    if |ms| > 0 {
      var before, m := ms[..|ms| - 1], ms[|ms| - 1];
      HeldThroughRun(s, t, before);
      RunKeepsOk(s, before);
      var e := EventOf(Run(s, before), m);
      if e.Some? { P.HeldStays(Run(s, before), e.value, t); }
    }
  }

  /** On every schedule: a classify call that acquired holds, whenever it scans before its release,
      the snapshot that was current at its acquire; and the scan finds that snapshot's strongest
      match, or that nothing matches. */
  lemma ClassifyDecidesByStrongest(before: seq<Move>, t: P.Reader, ms: seq<Move>, tuple: Tuple)
    requires var s := Run(P.INITIAL, before);
      t !in s.holds && t in P.Next(s, P.Acquire(t)).holds
    requires forall i :: 0 <= i < |ms| ==> ms[i] != Other(P.Release(t))
    ensures var s := Run(P.INITIAL, before);
      var s' := Run(Step(s, Other(P.Acquire(t))), ms);
      && P.Inv(s) && s.current.Some?
      && t in s'.holds && s'.holds[t] in s'.heap
      && var snap := s'.heap[s'.holds[t]].content;
      && snap == P.CurrentContent(s) && Good(snap)
      && (FirstMatch(snap.rules, tuple).None? <==> forall r :: r in snap.rules ==> !Matches(r, tuple))
      && (FirstMatch(snap.rules, tuple).Some? ==>
            && Strongest(FirstMatch(snap.rules, tuple).value, Elements(snap.rules), tuple)
            && TopOf(FirstMatch(snap.rules, tuple).value, Elements(snap.rules), tuple))
  {
    var s := Run(P.INITIAL, before);
    var u := Step(s, Other(P.Acquire(t)));
    PublishedIsGood(before);
    StepKeepsOk(s, Other(P.Acquire(t)));
    P.HeldIsAllocated(u, t);
    HeldThroughRun(u, t, ms);
    var snap := P.CurrentContent(s);
    assert P.Tracked(s, s.current.value);
    assert P.ViewOf(s).current == Some(snap);
    FirstMatchIsStrongest(snap.rules, tuple);
  }
}
