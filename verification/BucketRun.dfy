/** Token buckets beside concurrent publishes: classify calls create them under the rate lock, the
    writer resets those of vanished ids one by one after its W. When do stale ones stay behind? */
module BucketRun {
  import opened RuleTypes
  import opened RuleMatch
  import opened RuleOrder
  import opened RuleEngine
  import opened RateTable
  import opened RuleStore
  import opened ClassifyRun
  import V = StoreView
  import P = SnapshotProtocol

  /** `extra` is the id an accepted Add, or an Enable that disables, resets besides the vanished
      ones; `todo` what the writer past its W has yet to reset. */
  datatype State = BucketState(p: P.State, m: Buckets, extra: set<u64>, todo: set<u64>)

  datatype Action =
    | Store(move: Move)
    | Evaluate(t: P.Reader, tuple: Tuple, now: u64)
    | Reset(id: u64)

  function ExtraOf(ask: Ask): set<u64> {
    match ask
    case Add(r) => {r.ruleId}
    case Enable(id, on) => if on then {} else {id}
    case _ => {}
  }

  predicate Commits(b: State, m: Move) { m.Other? && P.Commits(b.p, m.e) }

  ghost function CurrentIds(b: State): set<u64> { IdsOf(P.ViewOf(b.p)) }

  /** The writer keeps storeLock until its resets are done. */
  ghost function StoreStep(b: State, m: Move): State {
    if m == Other(P.Unlock) && b.todo != {} then b
    else
      var p' := Step(b.p, m);
      var extra := if b.p.writer != P.Unlocked then b.extra
                   else if m.Write? && p'.writer.Entered? then ExtraOf(m.ask)
                   else {};
      if Commits(b, m) then BucketState(p', b.m, extra, (CurrentIds(b) - IdsOf(P.ViewOf(p'))) + b.extra)
      else BucketState(p', b.m, extra, b.todo)
  }

  /** The deciding rule of a reader that holds a snapshot, when it is a RATE_LIMIT rule. */
  ghost function Limiting(b: State, t: P.Reader, tuple: Tuple): Option<Rule> {
    if t in b.p.holds && b.p.holds[t] in b.p.heap then
      var hit := FirstMatch(b.p.heap[b.p.holds[t]].content.rules, tuple);
      if hit.Some? && hit.value.action == ACTION_RATE_LIMIT && hit.value.rateIntervalMs > 0 then hit else None
    else None
  }

  ghost function ActStep(b: State, a: Action): State {
    match a
    case Store(m) => StoreStep(b, m)
    case Evaluate(t, tuple, now) =>
      var r := Limiting(b, t, tuple);
      if r.None? then b else b.(m := Allow(b.m, r.value, now).1)
    case Reset(id) => if id in b.todo then b.(m := b.m - {id}, todo := b.todo - {id}) else b
  }

  ghost function RunActs(b: State, acts: seq<Action>): State {
    if |acts| == 0 then b else ActStep(RunActs(b, acts[..|acts| - 1]), acts[|acts| - 1])
  }

  const START: State := BucketState(P.INITIAL, map[], {}, {})

  ghost predicate Ok(b: State) { RunOk(b.p) && (b.todo != {} ==> b.p.writer.Diffing?) }

  /** While a snapshot is current, every bucket belongs to one of its rules or is about to go. */
  ghost predicate Covered(b: State) {
    P.ViewOf(b.p).current.Some? ==> b.m.Keys <= CurrentIds(b) + b.todo
  }

  /** The actions that leave a bucket behind: a reader of a displaced snapshot creates one for an id
      that is neither current nor still to be reset; or the store is installed over a used table. */
  ghost predicate Late(b: State, a: Action) {
    match a
    case Evaluate(t, tuple, _) =>
      && P.ViewOf(b.p).current.Some?
      && var r := Limiting(b, t, tuple);
      && r.Some? && r.value.ruleId !in CurrentIds(b) + b.todo && r.value.ruleId !in b.m && |b.m| < SLOTS
    case Store(m) => m.Other? && m.e.Init? && Step(b.p, m) != b.p && b.m != map[]
    case Reset(_) => false
  }

  // ---- every action ----

  lemma DiffingLeaves(s: P.State, m: Move)
    requires RunOk(s) && s.writer.Diffing? && m != Other(P.Unlock)
    ensures Step(s, m).writer == s.writer
  {
    var e := EventOf(s, m);
    if e.Some? {
      if P.Quiet(e.value) {
        P.QuietFrame(s, e.value);
      } else if e.value.Acquire? || e.value.Release? {
        P.ReaderKeepsWriter(s, e.value);
      }
    }
  }

  lemma CommitLeavesDiffing(s: P.State, e: P.Event)
    requires RunOk(s) && P.Commits(s, e)
    ensures P.Next(s, e).writer.Diffing?
  {
    assert P.Tracked(s, s.writer.made);
    assert P.Tracked(s, s.current.value);
    var prev, made := s.current.value, s.writer.made;
    var s1 := P.Install(s, prev, made);
    match s.writer.op
    case Publish(_, _) => P.RetireOptPointers(s1.(slot := Some(prev)), s.slot);
    case Rollback(rb) =>
  }

  lemma ActKeepsOk(b: State, a: Action)
    requires Ok(b)
    ensures Ok(ActStep(b, a))
  {
    if a.Store? {
      StepKeepsOk(b.p, a.move);
      if Commits(b, a.move) {
        CommitLeavesDiffing(b.p, a.move.e);
      } else if b.todo != {} && a.move != Other(P.Unlock) {
        DiffingLeaves(b.p, a.move);
      }
    }
  }

  lemma EvaluateCovers(b: State, t: P.Reader, tuple: Tuple, now: u64)
    requires Ok(b) && Covered(b)
    ensures Covered(ActStep(b, Evaluate(t, tuple, now))) <==> !Late(b, Evaluate(t, tuple, now))
  {
    var r := Limiting(b, t, tuple);
    if r.Some? {
      var m := Allow(b.m, r.value, now).1;
      assert forall id :: id in m <==> id in b.m || (id == r.value.ruleId && |b.m| < SLOTS);
    }
  }

  lemma CommitCovers(b: State, m: Move)
    requires Ok(b) && Covered(b) && Commits(b, m)
    ensures Covered(StoreStep(b, m))
  {
    P.NextRefinesView(b.p, m.e);
    assert b.todo == {};
  }

  lemma MoveCovers(b: State, m: Move)
    requires Ok(b) && Covered(b) && !Commits(b, m)
    ensures Covered(StoreStep(b, m)) <==> !Late(b, Store(m))
  {
    var e := EventOf(b.p, m);
    if e.Some? {
      P.NextRefinesView(b.p, e.value);
      if e.value.Init? && Step(b.p, m) != b.p {
        assert b.todo == {};
        assert CurrentIds(StoreStep(b, m)) == {};
      }
    }
  }

  /** Buckets stay covered over an action if and only if it is not a late one. */
  lemma CoveredIffNotLate(b: State, a: Action)
    requires Ok(b) && Covered(b)
    ensures Covered(ActStep(b, a)) <==> !Late(b, a)
  {
    match a
    case Evaluate(t, tuple, now) => EvaluateCovers(b, t, tuple, now);
    case Reset(id) =>
    case Store(m) => if Commits(b, m) { CommitCovers(b, m); } else { MoveCovers(b, m); }
  }

  /** Only a reader of a displaced snapshot can be late. */
  lemma LateIsDisplaced(b: State, t: P.Reader, tuple: Tuple, now: u64)
    requires Ok(b) && Late(b, Evaluate(t, tuple, now))
    ensures t in b.p.holds && b.p.current.Some? && b.p.current != Some(b.p.holds[t])
  {
    var rules := b.p.heap[b.p.holds[t]].content.rules;
    MatchIsARule(rules, tuple);
    assert Limiting(b, t, tuple).value.ruleId in Ids(rules);
    assert b.p.current == Some(b.p.holds[t]) ==> CurrentIds(b) == Ids(rules);
  }

  lemma {:induction false} MatchIsARule(rules: seq<Rule>, tuple: Tuple)
    ensures FirstMatch(rules, tuple).Some? ==> FirstMatch(rules, tuple).value in rules
  {
    if |rules| > 0 {
      MatchIsARule(rules[1..], tuple);
      assert rules == [rules[0]] + rules[1..];
    }
  }

  // ---- every schedule ----

  /** Covered after every prefix of the schedule. */
  ghost predicate AllCovered(acts: seq<Action>) {
    Covered(RunActs(START, acts)) && (|acts| > 0 ==> AllCovered(acts[..|acts| - 1]))
  }

  ghost predicate NoneLate(acts: seq<Action>) {
    |acts| > 0 ==>
      && NoneLate(acts[..|acts| - 1])
      && !Late(RunActs(START, acts[..|acts| - 1]), acts[|acts| - 1])
  }

  lemma {:induction false} RunActsOk(acts: seq<Action>)
    ensures Ok(RunActs(START, acts))
  {
    if |acts| == 0 {
      PublishedIsGood([]);
    } else {
      RunActsOk(acts[..|acts| - 1]);
      ActKeepsOk(RunActs(START, acts[..|acts| - 1]), acts[|acts| - 1]);
    }
  }

  /** On every schedule: the buckets stay within the current ids, but for resets under way, at every
      moment, if and only if no action is late. */
  lemma {:induction false} CoveredIffNoneLate(acts: seq<Action>)
    ensures AllCovered(acts) <==> NoneLate(acts)
  {
    if |acts| > 0 {
      var before := acts[..|acts| - 1];
      CoveredIffNoneLate(before);
      if AllCovered(before) {
        RunActsOk(before);
        CoveredIffNotLate(RunActs(START, before), acts[|acts| - 1]);
      }
    }
  }

  /** Then an id that a write brings in has no bucket: what is reused starts fresh. */
  lemma NewIdStartsFresh(b: State, m: Move, id: u64)
    requires Ok(b) && Covered(b) && Commits(b, m)
    requires id in CurrentIds(StoreStep(b, m)) && id !in CurrentIds(b)
    ensures id !in StoreStep(b, m).m
  {
    P.NextRefinesView(b.p, m.e);
    assert b.todo == {};
  }

  // ---- one id: when does it inherit? ----

  /** The actions that strand a bucket of this id: an evaluation creates it while the id is neither
      current nor to be reset, or the store closes over it. */
  ghost predicate Strands(b: State, a: Action, id: u64) {
    match a
    case Evaluate(t, tuple, _) =>
      var r := Limiting(b, t, tuple);
      r.Some? && r.value.ruleId == id && id !in CurrentIds(b) + b.todo && id !in b.m && |b.m| < SLOTS
    case Store(m) => m == Other(P.ShutSwap) && Step(b.p, m) != b.p && id in b.m
    case Reset(_) => false
  }

  /** A reset that takes effect. */
  ghost predicate Clears(b: State, a: Action, id: u64) { a == Reset(id) && id in b.todo }

  /** No action behind the k-th resets the id with effect. */
  ghost predicate Unreset(acts: seq<Action>, k: nat, id: u64)
    requires k < |acts|
  {
    |acts| > k + 1 ==>
      && Unreset(acts[..|acts| - 1], k, id)
      && !Clears(RunActs(START, acts[..|acts| - 1]), acts[|acts| - 1], id)
  }

  /** The k-th action stranded a bucket of the id and no reset of it has taken effect since. */
  ghost predicate StrandedAt(acts: seq<Action>, k: nat, id: u64)
    requires k < |acts|
  {
    Strands(RunActs(START, acts[..k]), acts[k], id) && Unreset(acts, k, id)
  }

  ghost predicate Residue(acts: seq<Action>, id: u64) {
    exists k :: 0 <= k < |acts| && StrandedAt(acts, k, id)
  }

  lemma StrandedSnoc(acts: seq<Action>, a: Action, k: nat, id: u64)
    requires k < |acts|
    ensures StrandedAt(acts + [a], k, id) <==> StrandedAt(acts, k, id) && !Clears(RunActs(START, acts), a, id)
  {
    var all := acts + [a];
    assert all[..|acts|] == acts && all[..|all| - 1] == acts && all[|acts|] == a;
    assert all[..k] == acts[..k] && all[k] == acts[k];
  }

  lemma StrandedLast(acts: seq<Action>, a: Action, id: u64)
    ensures StrandedAt(acts + [a], |acts|, id) <==> Strands(RunActs(START, acts), a, id)
  {
    assert (acts + [a])[..|acts|] == acts;
  }

  lemma ResidueSnoc(acts: seq<Action>, a: Action, id: u64)
    ensures Residue(acts + [a], id) <==>
      Strands(RunActs(START, acts), a, id) || (Residue(acts, id) && !Clears(RunActs(START, acts), a, id))
  {
    StrandedLast(acts, a, id);
    forall k | 0 <= k < |acts|
      ensures StrandedAt(acts + [a], k, id) <==> StrandedAt(acts, k, id) && !Clears(RunActs(START, acts), a, id)
    {
      StrandedSnoc(acts, a, k, id);
    }
  }

  /** What residue means for the table. */
  ghost predicate Tells(b: State, id: u64, residue: bool) {
    && (residue ==> id in b.m)
    && (id !in CurrentIds(b) + b.todo && id in b.m ==> residue)
  }

  lemma EvaluateTells(b: State, t: P.Reader, tuple: Tuple, now: u64, id: u64, was: bool)
    requires Ok(b) && Tells(b, id, was)
    ensures var a := Evaluate(t, tuple, now); Tells(ActStep(b, a), id, Strands(b, a, id) || was)
  {
    var r := Limiting(b, t, tuple);
    if r.Some? {
      var m := Allow(b.m, r.value, now).1;
      assert forall x :: x in m <==> x in b.m || (x == r.value.ruleId && |b.m| < SLOTS);
    }
  }

  lemma InitFindsNone(s: P.State, id: P.Id)
    requires RunOk(s) && P.Next(s, P.Init(id)) != s
    ensures s.current.None?
  {
  }

  lemma MoveTells(b: State, m: Move, id: u64, was: bool)
    requires Ok(b) && Tells(b, id, was)
    ensures Tells(StoreStep(b, m), id, Strands(b, Store(m), id) || was)
  {
    var e := EventOf(b.p, m);
    if e.Some? {
      P.NextRefinesView(b.p, e.value);
      if e.value.Init? && Step(b.p, m) != b.p { InitFindsNone(b.p, e.value.newId); }
    }
  }

  lemma StepTells(b: State, a: Action, id: u64, was: bool)
    requires Ok(b) && Tells(b, id, was)
    ensures Tells(ActStep(b, a), id, Strands(b, a, id) || (was && !Clears(b, a, id)))
  {
    match a
    case Evaluate(t, tuple, now) => EvaluateTells(b, t, tuple, now, id, was);
    case Store(m) => MoveTells(b, m, id, was);
    case Reset(_) =>
  }

  /** On every schedule, shutdowns included: an id that is neither current nor to be reset has a
      bucket if and only if there is residue of it. */
  lemma {:induction false} BucketIffResidue(acts: seq<Action>, id: u64)
    ensures Tells(RunActs(START, acts), id, Residue(acts, id))
  {
    if |acts| > 0 {
      var before, a := acts[..|acts| - 1], acts[|acts| - 1];
      BucketIffResidue(before, id);
      RunActsOk(before);
      assert acts == before + [a];
      ResidueSnoc(before, a, id);
      StepTells(RunActs(START, before), a, id, Residue(before, id));
    }
  }

  /** An id that a write brings in inherits a bucket if and only if some evaluation on a displaced
      snapshot, or a shutdown, stranded one and no reset of that id has taken effect since. */
  lemma NewIdInheritsIff(acts: seq<Action>, m: Move, id: u64)
    requires var b := RunActs(START, acts);
      Commits(b, m) && id !in CurrentIds(b) && id in CurrentIds(StoreStep(b, m))
    ensures id in StoreStep(RunActs(START, acts), m).m <==> Residue(acts, id)
  {
    BucketIffResidue(acts, id);
    RunActsOk(acts);
  }

  // ---- a late reader, concretely ----

  lemma Also(acts: seq<Action>, b: State, a: Action) returns (more: seq<Action>, c: State)
    requires b == RunActs(START, acts)
    ensures more == acts + [a] && c == ActStep(b, a) && c == RunActs(START, more)
  {
    more, c := acts + [a], ActStep(b, a);
    assert more[..|acts|] == acts;
  }

  /** Reader t, if it holds a snapshot, holds it still with the same content. */
  ghost predicate SameHeld(s: P.State, s': P.State, t: P.Reader) {
    && (t in s.holds <==> t in s'.holds)
    && (t in s.holds && s.holds[t] in s.heap ==>
          && s'.holds[t] == s.holds[t] && s.holds[t] in s'.heap
          && s'.heap[s.holds[t]].content == s.heap[s.holds[t]].content)
  }

  lemma EnterFacts(s: P.State, ask: Ask, id: P.Id)
    requires RunOk(s) && s.writer == P.Unlocked && P.Writable(s) && id !in s.heap
    requires P.ViewOf(s).current.Some? && Computed(ask, P.ViewOf(s).current.value).Some?
    ensures var (rules, policy) := Computed(ask, P.ViewOf(s).current.value).value;
      && Step(s, Write(ask)) == s.(writer := P.Entered(P.Publish(rules, policy)))
      && Step(Step(s, Write(ask)), Other(P.Alloc(id))) ==
           s.(heap := s.heap[id := P.Snap(Snapshot(rules, 0, policy), 0)],
              writer := P.Draining(P.Publish(rules, policy), id, {}))
  {
    assert P.Tracked(s, s.current.value);
  }

  lemma SwapFacts(s: P.State, t: P.Reader)
    requires RunOk(s) && P.Commits(s, P.Swap) && s.writer.op.Publish?
    ensures var s' := P.Next(s, P.Swap);
      && s'.writer.Diffing? && s'.inited == s.inited && s'.closed == s.closed && s'.active == s.active
      && s'.heap.Keys == s.heap.Keys && s'.holds == s.holds && SameHeld(s, s', t)
  {
    CommitLeavesDiffing(s, P.Swap);
    assert P.Tracked(s, s.writer.made) && P.Tracked(s, s.current.value);
    P.SwapFrame(s, 0);
    if t in s.holds { P.HeldStays(s, P.Swap, t); }
    if s.slot.Some? { assert P.Tracked(s, s.slot.value); }
    SwapKeys(s);
  }

  lemma SwapKeys(s: P.State)
    requires P.Commits(s, P.Swap) && s.writer.op.Publish?
    requires s.current.Some? && s.current.value in s.heap && s.writer.made in s.heap
    requires s.slot.Some? ==> s.slot.value in s.heap
    ensures var s' := P.Next(s, P.Swap);
      s'.inited == s.inited && s'.closed == s.closed && s'.active == s.active && s'.heap.Keys == s.heap.Keys
  {
  }

  /** A store at rest: no writer, open gate, nothing to reset. */
  ghost predicate Rest(b: State) {
    Ok(b) && b.p.writer == P.Unlocked && P.Writable(b.p) && P.ViewOf(b.p).current.Some? && b.todo == {}
  }

  ghost predicate Built(b: State, rules: seq<Rule>, policy: u32) {
    && Ok(b) && b.p.writer.Draining? && b.p.writer.op == P.Publish(rules, policy) && b.p.writer.drained == {}
    && P.Writable(b.p) && P.ViewOf(b.p).current.Some? && b.todo == {}
  }

  /** A writer call takes the lock. */
  lemma EnterPart(acts: seq<Action>, b: State, ask: Ask, id: P.Id) returns (more: seq<Action>, c: State)
    requires b == RunActs(START, acts) && Rest(b) && id !in b.p.heap
    requires Computed(ask, P.ViewOf(b.p).current.value).Some?
    ensures c == RunActs(START, more) && acts <= more && Ok(c)
    ensures var (rules, policy) := Computed(ask, P.ViewOf(b.p).current.value).value;
      c.p == b.p.(writer := P.Entered(P.Publish(rules, policy)))
    ensures c.extra == ExtraOf(ask) && c.m == b.m && c.todo == {}
  {
    EnterFacts(b.p, ask, id);
    more, c := Also(acts, b, Store(Write(ask)));
    ActKeepsOk(b, Store(Write(ask)));
  }

  /** Lock and allocation. */
  lemma BuildPart(acts: seq<Action>, b: State, ask: Ask, id: P.Id, t: P.Reader) returns (more: seq<Action>, c: State)
    requires b == RunActs(START, acts) && Rest(b) && id !in b.p.heap
    requires Computed(ask, P.ViewOf(b.p).current.value).Some?
    ensures c == RunActs(START, more) && acts <= more
    ensures var (rules, policy) := Computed(ask, P.ViewOf(b.p).current.value).value;
      Built(c, rules, policy) && c.extra == ExtraOf(ask) && c.m == b.m && P.ViewOf(c.p) == P.ViewOf(b.p)
    ensures c.p.heap.Keys == b.p.heap.Keys + {id} && c.p.holds == b.p.holds && SameHeld(b.p, c.p, t)
  {
    EnterFacts(b.p, ask, id);
    var b1;
    more, b1 := EnterPart(acts, b, ask, id);
    more, c := Also(more, b1, Store(Other(P.Alloc(id))));
    ActKeepsOk(b1, Store(Other(P.Alloc(id))));
    assert P.Tracked(b.p, b.p.current.value);
    if b.p.slot.Some? { assert P.Tracked(b.p, b.p.slot.value); }
  }

  /** W. */
  lemma SwapPart(acts: seq<Action>, b: State, rules: seq<Rule>, policy: u32, t: P.Reader)
    returns (more: seq<Action>, c: State)
    requires b == RunActs(START, acts) && Built(b, rules, policy)
    ensures c == RunActs(START, more) && acts <= more && Ok(c) && c.p.writer.Diffing? && P.Writable(c.p)
    ensures P.ViewOf(c.p).current.Some? && P.ViewOf(c.p).current.value.rules == rules
    ensures c.m == b.m && c.todo == (CurrentIds(b) - Ids(rules)) + b.extra
    ensures c.p.heap.Keys == b.p.heap.Keys && c.p.holds == b.p.holds && SameHeld(b.p, c.p, t)
  {
    more, c := Also(acts, b, Store(Other(P.Swap)));
    ActKeepsOk(b, Store(Other(P.Swap)));
    P.NextRefinesView(b.p, P.Swap);
    SwapFacts(b.p, t);
  }

  /** Resets of at most one id, and unlock. */
  lemma ResetPart(acts: seq<Action>, b: State, x: u64) returns (more: seq<Action>, c: State)
    requires b == RunActs(START, acts) && Ok(b) && b.p.writer.Diffing? && P.Writable(b.p) && b.todo <= {x}
    requires P.ViewOf(b.p).current.Some?
    ensures c == RunActs(START, more) && acts <= more && Rest(c)
    ensures P.ViewOf(c.p) == P.ViewOf(b.p) && c.m == b.m - b.todo
    ensures c.p.heap == b.p.heap && c.p.holds == b.p.holds
  {
    var b1;
    more, b1 := Also(acts, b, Reset(x));
    ActKeepsOk(b, Reset(x));
    assert b.todo == {} || b.todo == {x};
    assert b1.p == b.p && b1.todo == {} && b1.m == b.m - b.todo;
    more, c := Also(more, b1, Store(Other(P.Unlock)));
    ActKeepsOk(b1, Store(Other(P.Unlock)));
    assert c.p == b.p.(writer := P.Unlocked);
  }

  /** A writer call that runs to its end, with memory: lock, allocation, W, resets, unlock. */
  lemma CallThrough(acts: seq<Action>, b: State, ask: Ask, id: P.Id, x: u64, t: P.Reader)
    returns (more: seq<Action>, c: State)
    requires b == RunActs(START, acts) && Rest(b) && id !in b.p.heap
    requires Computed(ask, P.ViewOf(b.p).current.value).Some?
    requires CurrentIds(b) - Ids(Computed(ask, P.ViewOf(b.p).current.value).value.0) + ExtraOf(ask) <= {x}
    ensures c == RunActs(START, more) && acts <= more && Rest(c)
    ensures var (rules, policy) := Computed(ask, P.ViewOf(b.p).current.value).value;
      && P.ViewOf(c.p).current.value.rules == rules
      && c.m == b.m - ((CurrentIds(b) - Ids(rules)) + ExtraOf(ask))
    ensures c.p.heap.Keys == b.p.heap.Keys + {id} && c.p.holds == b.p.holds && SameHeld(b.p, c.p, t)
  {
    var (rules, policy) := Computed(ask, P.ViewOf(b.p).current.value).value;
    var built, swapped;
    more, built := BuildPart(acts, b, ask, id, t);
    more, swapped := SwapPart(more, built, rules, policy, t);
    more, c := ResetPart(more, swapped, x);
  }

  /** A rate-limit rule without conditions. */
  function Limit(id: u64): Rule {
    var zero: Address := seq(16, _ => 0);
    Rule(id, 0, 0, ACTION_RATE_LIMIT, 1, 0, 0, 0, 0, 0, 0, 0, 0, 0, 0, 0, 0, 0, zero, zero, 0, 0,
         seq(32, _ => 0), 0, 1, 1000, 2)
  }

  lemma LimitMatches(id: u64, tuple: Tuple)
    requires id > 0
    ensures Accepted(Limit(id)) && Matches(Limit(id), tuple)
  {
    assert Limit(id).mask == 0;
  }

  lemma SortAlone(r: Rule)
    ensures InsertionSort([r]) == [r]
  {
    assert [r][..0] == [];
    assert InsertionSort([]) == [];
    assert Insert([], r) == [] + [r];
  }

  lemma ArgsAlone(r: Rule)
    requires Accepted(r)
    ensures ReplaceArgs([r]) == Success && UniqueIds([r])
  {
    assert forall q :: q in [r] ==> q == r;
  }

  lemma IdsAlone(r: Rule)
    ensures Ids([r]) == {r.ruleId} && Find([r], r.ruleId) == 0
  {
    assert r in [r];
  }

  lemma LimitAlone(id: u64)
    requires id > 0 && Accepted(Limit(id))
    ensures ReplaceArgs([Limit(id)]) == Success && InsertionSort([Limit(id)]) == [Limit(id)]
    ensures Ids([Limit(id)]) == {id} && Find([Limit(id)], id) == 0 && UniqueIds([Limit(id)])
  {
    SortAlone(Limit(id));
    ArgsAlone(Limit(id));
    IdsAlone(Limit(id));
  }

  lemma FirstToken(id: u64, now: u64)
    ensures Allow(map[], Limit(id), now) == (true, map[id := Bucket(1, now)])
  {
  }

  lemma ActivateStep()
    ensures ActStep(START, Store(Other(P.SetActive(true)))) == START.(p := P.INITIAL.(active := true))
  {
    var m := Other(P.SetActive(true));
    assert !Commits(START, m);
    assert Step(P.INITIAL, m) == P.INITIAL.(active := true);
  }

  lemma Activated() returns (acts: seq<Action>, b: State)
    ensures b == RunActs(START, acts) && b == START.(p := P.INITIAL.(active := true))
  {
    ActivateStep();
    assert RunActs(START, []) == START;
    acts, b := Also([], START, Store(Other(P.SetActive(true))));
  }

  lemma Opened() returns (acts: seq<Action>, b: State)
    ensures b == RunActs(START, acts) && Rest(b) && b.m == map[] && b.p.heap.Keys == {0} && b.p.holds == map[]
    ensures CurrentIds(b) == {} && P.ViewOf(b.p).current.value.rules == []
  {
    acts, b := Activated();
    acts, b := Also(acts, b, Store(Other(P.Init(0))));
    RunActsOk(acts);
  }

  lemma AcquirePart(acts: seq<Action>, b: State) returns (more: seq<Action>, c: State)
    requires b == RunActs(START, acts) && Rest(b) && b.p.holds == map[]
    ensures c == RunActs(START, more) && Rest(c) && c.m == b.m && c.p.heap.Keys == b.p.heap.Keys
    ensures P.ViewOf(c.p) == P.ViewOf(b.p)
    ensures 0 in c.p.holds && c.p.holds[0] in c.p.heap
    ensures c.p.heap[c.p.holds[0]].content == P.ViewOf(b.p).current.value
  {
    var a := Store(Other(P.Acquire(0)));
    assert P.HoldersOf(b.p.holds, b.p.current.value) == {};
    P.AcquireSucceedsIff(b.p, 0);
    P.NextRefinesView(b.p, P.Acquire(0));
    more, c := Also(acts, b, a);
    ActKeepsOk(b, a);
    P.ReaderSeesAcquiredSnapshot(b.p, 0, []);
    assert P.Tracked(b.p, b.p.current.value);
  }

  /** A store at rest with these rules and buckets. */
  ghost predicate Now(b: State, rules: seq<Rule>, m: Buckets) {
    Rest(b) && P.ViewOf(b.p).current.value.rules == rules && b.m == m
  }

  /** The rule is installed, a reader acquires, the rule is deleted and its bucket reset. */
  lemma DisplacedReader(id: u64) returns (acts: seq<Action>, b: State)
    requires id > 0 && Accepted(Limit(id))
    ensures b == RunActs(START, acts) && Now(b, [], map[]) && b.p.heap.Keys == {0, 1, 2}
    ensures 0 in b.p.holds && b.p.holds[0] in b.p.heap && b.p.heap[b.p.holds[0]].content.rules == [Limit(id)]
  {
    LimitAlone(id);
    acts, b := Opened();
    acts, b := CallThrough(acts, b, Replace([Limit(id)], 0), 1, id, 0);
    acts, b := AcquirePart(acts, b);
    assert P.ViewOf(b.p).current.value.rules == [Limit(id)];
    acts, b := CallThrough(acts, b, Delete(id), 2, id, 0);
  }

  /** A reader acquires, its rule is deleted and the bucket reset, the reader evaluates and creates
      the bucket again, and a Replace that reuses the id inherits it, one token short. */
  lemma LateReaderInherits(id: u64, tuple: Tuple, now: u64)
    returns (acts: seq<Action>, gone: State, more: seq<Action>, b: State)
    requires id > 0
    ensures gone == RunActs(START, acts) && !Covered(gone) && id !in CurrentIds(gone) && id in gone.m
    ensures b == RunActs(START, more) && acts <= more
    ensures Rest(b) && CurrentIds(b) == {id} && id in b.m
    ensures b.m[id] == Bucket(1, now) != FullBucket(Limit(id), now)
  {
    LimitMatches(id, tuple);
    LimitAlone(id);
    FirstToken(id, now);
    var c;
    acts, c := DisplacedReader(id);
    assert FirstMatch([Limit(id)], tuple) == Some(Limit(id));
    assert Limiting(c, 0, tuple) == Some(Limit(id));
    ActKeepsOk(c, Evaluate(0, tuple, now));
    acts, gone := Also(acts, c, Evaluate(0, tuple, now));
    assert Now(gone, [], map[id := Bucket(1, now)]);
    more, b := CallThrough(acts, gone, Replace([Limit(id)], 0), 3, id, 0);
  }
}
