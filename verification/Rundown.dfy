/** The stop-bit rundown: one 32-bit counter shared by any number of threads.
    Acquire's load and compare-and-swap, Release's subtraction and its repair are separate
    atomic steps; memory is sequentially consistent. */
module Rundown {
  import opened RuleTypes

  type Long = x: int | -0x8000_0000 <= x < 0x8000_0000

  const STOP_BIT: Long := -0x8000_0000
  const CEILING: Long := 0x4000_0000

  /** Two's complement result of a 32-bit addition. */
  function Wrap(x: int): (c: Long)
    ensures -0x8000_0000 <= x < 0x8000_0000 ==> c == x
  {
    (x + 0x8000_0000) % 0x1_0000_0000 - 0x8000_0000
  }

  /** `c | STOP_BIT`. */
  function SetStop(c: Long): Long { if c >= 0 then c + STOP_BIT else c }

  /** What the counter means: the stop flag and the number of holders. */
  function Encode(stopped: bool, holders: nat): Long
    requires holders <= CEILING
  {
    if stopped then STOP_BIT + holders else holders
  }

  lemma EncodeInjective(s1: bool, h1: nat, s2: bool, h2: nat)
    requires h1 <= CEILING && h2 <= CEILING && Encode(s1, h1) == Encode(s2, h2)
    ensures s1 == s2 && h1 == h2
  {}

  /** ShRundownActiveCount: -1 for stopped and drained, else the holder count. */
  function ActiveCount(c: Long): int {
    if c == STOP_BIT then -1 else if c < 0 then c - STOP_BIT else c
  }

  // ---- the interleaved machine ----

  /** One thread per reference: a thread acquires, then releases, and may do so again. */
  type Thread = nat

  datatype State = State(
    count: Long,
    loaded: map<Thread, Long>,   // threads between Acquire's load and its compare-and-swap
    holding: set<Thread>,        // threads whose Acquire succeeded and that have not released
    repairing: set<Thread>,      // threads inside Release's underflow branch
    stopped: bool,               // BeginStop has happened
    underflows: nat)

  datatype Step =
    | Load(t: Thread)
    | Cas(t: Thread)
    | BeginStop
    | Sub(t: Thread)
    | Repair(t: Thread)

  const INITIAL: State := State(0, map[], {}, {}, false, 0)

  predicate Idle(s: State, t: Thread) { t !in s.loaded && t !in s.holding && t !in s.repairing }

  /** One atomic step; a step that its thread is not at leaves the state unchanged. */
  function Next(s: State, e: Step): State {
    match e
    case Load(t) =>
      if Idle(s, t) && 0 <= s.count < CEILING then s.(loaded := s.loaded[t := s.count]) else s
    case Cas(t) =>
      if t !in s.loaded then s
      else if s.count == s.loaded[t] then
        s.(count := Wrap(s.count + 1), loaded := s.loaded - {t}, holding := s.holding + {t})
      else s.(loaded := s.loaded - {t}) // retry from the load
    case BeginStop => s.(count := SetStop(s.count), stopped := true)
    case Sub(t) =>
      if t in s.loaded || t in s.repairing then s
      else
        var s' := s.(count := Wrap(s.count - 1), holding := s.holding - {t});
        if s.count == STOP_BIT || s.count == 0 then s'.(repairing := s.repairing + {t}) else s'
    case Repair(t) =>
      if t !in s.repairing then s
      else s.(count := Wrap(s.count + 1), repairing := s.repairing - {t}, underflows := s.underflows + 1)
  }

  function Exec(s: State, es: seq<Step>): State {
    if |es| == 0 then s else Next(Exec(s, es[..|es| - 1]), es[|es| - 1])
  }

  /** Every Release in the schedule is made by a thread that holds a reference at that point. */
  ghost predicate Paired(s: State, es: seq<Step>) {
    forall i :: 0 <= i < |es| && es[i].Sub? ==> es[i].t in Exec(s, es[..i]).holding
  }

  ghost predicate Inv(s: State) {
    && |s.holding| <= CEILING
    && s.count == Encode(s.stopped, |s.holding|)
    && (forall t :: t in s.loaded ==> 0 <= s.loaded[t] < CEILING && t !in s.holding)
    && s.repairing == {} && s.underflows == 0
  }

  lemma CasKeepsInv(s: State, t: Thread)
    requires Inv(s) && t in s.loaded && s.count == s.loaded[t]
    ensures Inv(Next(s, Cas(t)))
    ensures !s.stopped
  {
    assert |s.holding + {t}| == |s.holding| + 1;
  }

  lemma SubKeepsInv(s: State, t: Thread)
    requires Inv(s) && t in s.holding
    ensures Inv(Next(s, Sub(t)))
  {
    assert |s.holding - {t}| == |s.holding| - 1;
  }

  lemma NextKeepsInv(s: State, e: Step)
    requires Inv(s) && (e.Sub? ==> e.t in s.holding)
    ensures Inv(Next(s, e))
    ensures s.stopped ==> Next(s, e).stopped && Next(s, e).holding <= s.holding
  {
    if e.Sub? {
      SubKeepsInv(s, e.t);
    } else if e.Cas? && e.t in s.loaded && s.count == s.loaded[e.t] {
      CasKeepsInv(s, e.t);
    }
  }

  lemma PairedPrefix(s: State, es: seq<Step>)
    requires Paired(s, es) && |es| > 0
    ensures Paired(s, es[..|es| - 1])
    ensures es[|es| - 1].Sub? ==> es[|es| - 1].t in Exec(s, es[..|es| - 1]).holding
  {
    var p := es[..|es| - 1];
    forall i | 0 <= i < |p| && p[i].Sub? ensures p[i].t in Exec(s, p[..i]).holding {
      assert p[i] == es[i] && p[..i] == es[..i];
    }
  }

  /** Under paired use the counter always encodes exactly the stop flag and the number of holders,
      and the underflow branch is never taken. The holder bound is Acquire's own ceiling test. */
  lemma {:induction false} CountIsExact(es: seq<Step>)
    requires Paired(INITIAL, es)
    ensures Inv(Exec(INITIAL, es))
  {
    if |es| > 0 {
      PairedPrefix(INITIAL, es);
      CountIsExact(es[..|es| - 1]);
      NextKeepsInv(Exec(INITIAL, es[..|es| - 1]), es[|es| - 1]);
    }
  }

  /** Once stopped, always stopped, and the set of holders only shrinks: no Acquire succeeds. */
  lemma {:induction false} StopIsFinal(s: State, es: seq<Step>)
    requires Inv(s) && s.stopped && Paired(s, es)
    ensures Inv(Exec(s, es)) && Exec(s, es).stopped && Exec(s, es).holding <= s.holding
  {
    if |es| > 0 {
      PairedPrefix(s, es);
      StopIsFinal(s, es[..|es| - 1]);
      NextKeepsInv(Exec(s, es[..|es| - 1]), es[|es| - 1]);
    }
  }

  /** A poll that reads STOP_BIT proves there is no holder now and there never will be one;
      the counter stays at STOP_BIT, so a later poll reads the same. */
  lemma DrainedForever(s: State, es: seq<Step>)
    requires Inv(s) && s.count == STOP_BIT && Paired(s, es)
    ensures Exec(s, es).count == STOP_BIT && Exec(s, es).holding == {}
  {
    EncodeInjective(s.stopped, |s.holding|, true, 0);
    StopIsFinal(s, es);
  }

  /** The other way round: the count reads STOP_BIT as soon as it is stopped without holders. */
  lemma DrainSucceedsIff(s: State)
    requires Inv(s)
    ensures s.count == STOP_BIT <==> s.stopped && s.holding == {}
    ensures ActiveCount(s.count) == -1 <==> s.stopped && s.holding == {}
    ensures ActiveCount(s.count) != -1 ==> ActiveCount(s.count) == |s.holding|
  {
    if s.count == STOP_BIT {
      EncodeInjective(s.stopped, |s.holding|, true, 0);
    }
  }

  /** A lone Acquire succeeds exactly when not stopped and below the ceiling. */
  lemma AcquireSucceedsIff(s: State, t: Thread)
    requires Inv(s) && Idle(s, t)
    ensures t in Exec(s, [Load(t), Cas(t)]).holding <==> !s.stopped && |s.holding| < CEILING
  {
    var es := [Load(t), Cas(t)];
    assert es[..1] == [Load(t)] && es[..1][..0] == [];
    assert Exec(s, [Load(t)]) == Next(s, Load(t));
  }

  /** A failed compare-and-swap means another thread moved the counter since the load. */
  lemma CasFailureMeansProgress(s: State, t: Thread, es: seq<Step>)
    requires Idle(s, t) && 0 <= s.count < CEILING
    requires t !in Next(Exec(Next(s, Load(t)), es), Cas(t)).holding
    requires t in Exec(Next(s, Load(t)), es).loaded
    requires forall i :: 0 <= i < |es| ==> es[i] != Cas(t)
    ensures Exec(Next(s, Load(t)), es).count != s.count
  {
    LoadedStays(Next(s, Load(t)), t, es);
  }

  lemma {:induction false} LoadedStays(s: State, t: Thread, es: seq<Step>)
    requires t in s.loaded && forall i :: 0 <= i < |es| ==> es[i] != Cas(t)
    ensures t in Exec(s, es).loaded && Exec(s, es).loaded[t] == s.loaded[t]
  {
    if |es| > 0 {
      LoadedStays(s, t, es[..|es| - 1]);
    }
  }

  // ---- the injection gate: the same counter, with a drain that also accepts a plain zero ----

  /** ShInjectionDrain's test. */
  predicate InjectionDrained(c: Long) { c == STOP_BIT || c == 0 }

  lemma {:induction false} Fresh(ids: set<Thread>) returns (t: Thread)
    ensures forall x :: x in ids ==> x < t
  {
    if ids == {} {
      t := 0;
    } else {
      var x :| x in ids;
      var u := Fresh(ids - {x});
      t := if x < u then u else x + 1;
      assert forall y :: y in ids ==> y == x || y in ids - {x};
    }
  }

  /** A successful injection drain is final if and only if GateStop came before it, whatever other
      threads are inside Acquire when it polls. */
  lemma InjectionDrainFinalIff(s: State)
    requires Inv(s) && InjectionDrained(s.count)
    ensures s.holding == {}
    ensures s.stopped <==> forall es :: Paired(s, es) ==> Exec(s, es).holding == {}
  {
    EncodeInjective(s.stopped, |s.holding|, s.count == STOP_BIT, 0);
    if s.stopped {
      forall es | Paired(s, es) ensures Exec(s, es).holding == {} {
        DrainedForever(s, es);
      }
    } else {
      var t := Fresh(s.loaded.Keys);
      assert Idle(s, t);
      AcquireSucceedsIff(s, t);
      assert Paired(s, [Load(t), Cas(t)]);
    }
  }

  // ---- unpaired releases ----

  /** Run alone, an unpaired Release puts the counter back and records the underflow. */
  lemma UnpairedReleaseAlone(s: State, t: Thread)
    requires Inv(s) && s.holding == {} && Idle(s, t)
    ensures Exec(s, [Sub(t), Repair(t)]) == s.(underflows := 1)
  {
    var es := [Sub(t), Repair(t)];
    assert es[..1] == [Sub(t)] && es[..1][..0] == [];
    assert Exec(s, [Sub(t)]) == Next(s, Sub(t));
    assert s.holding - {t} == s.holding && s.repairing + {t} - {t} == s.repairing;
  }

  predicate HasStop(es: seq<Step>) { |es| > 0 && (es[|es| - 1].BeginStop? || HasStop(es[..|es| - 1])) }

  /** How many releases of a schedule take effect. */
  function Releases(s: State, es: seq<Step>): nat {
    if |es| == 0 then 0
    else
      var u, e := Exec(s, es[..|es| - 1]), es[|es| - 1];
      Releases(s, es[..|es| - 1]) + if e.Sub? && e.t !in u.loaded && e.t !in u.repairing then 1 else 0
  }

  /** Inside the window of t's unpaired release: the counter is out of Acquire's range. */
  ghost predicate Window(s: State, t: Thread, stop: bool, released: nat) {
    && s.count == (if stop then 0x7FFF_FFFF - released else -1 - released)
    && s.repairing == {t} && s.holding == {}
    && forall u :: u in s.loaded ==> 0 <= s.loaded[u] < CEILING
  }

  lemma WindowStep(s: State, t: Thread, stop: bool, released: nat, e: Step)
    requires Window(s, t, stop, released) && e != Repair(t)
    requires released + (if e.Sub? && e.t !in s.loaded && e.t !in s.repairing then 1 else 0) < CEILING
    ensures var acts := e.Sub? && e.t !in s.loaded && e.t !in s.repairing;
      Window(Next(s, e), t, stop && !e.BeginStop?, released + if acts then 1 else 0)
    ensures Next(s, e).stopped == (s.stopped || e.BeginStop?)
  {
  }

  /** The counter all through the window, whatever else runs. */
  lemma {:induction false} WindowCount(u: State, t: Thread, stop: bool, es: seq<Step>)
    requires Window(u, t, stop, 0)
    requires forall i :: 0 <= i < |es| ==> es[i] != Repair(t)
    requires Releases(u, es) < CEILING
    ensures Window(Exec(u, es), t, stop && !HasStop(es), Releases(u, es))
    ensures Exec(u, es).stopped == (u.stopped || HasStop(es))
  {
    if |es| > 0 {
      var m := |es| - 1;
      WindowCount(u, t, stop, es[..m]);
      WindowStep(Exec(u, es[..m]), t, stop && !HasStop(es[..m]), Releases(u, es[..m]), es[m]);
    }
  }

  lemma UnpairedOpens(s: State, t: Thread)
    requires Inv(s) && s.holding == {} && Idle(s, t)
    ensures Window(Next(s, Sub(t)), t, s.stopped, 0) && Next(s, Sub(t)).stopped == s.stopped
  {
  }

  lemma WindowEnd(v: State, t: Thread, was: bool, stops: bool, released: nat)
    requires Window(v, t, was && !stops, released) && released < CEILING && v.stopped == (was || stops)
    ensures var w := Next(v, Repair(t));
      && (w.count == Encode(w.stopped, 0) <==> !stops && released == 0)
      && (stops && released == 0 ==> w.count == 0 && w.stopped)
      && (released > 0 ==> (w.count < 0 || w.count >= CEILING) && w.count != STOP_BIT)
  {
    assert Next(v, Repair(t)).stopped == v.stopped;
  }

  lemma RepairInWindow(s: State, t: Thread, es: seq<Step>)
    requires Inv(s) && s.holding == {} && Idle(s, t)
    requires forall i :: 0 <= i < |es| ==> es[i] != Repair(t)
    requires Releases(Next(s, Sub(t)), es) < CEILING
    ensures var u := Next(s, Sub(t));
      var v := Next(Exec(u, es), Repair(t));
      && v.holding == {}
      && (v.count == Encode(v.stopped, 0) <==> !HasStop(es) && Releases(u, es) == 0)
      && (HasStop(es) && Releases(u, es) == 0 ==> v.count == 0 && v.stopped)
      && (Releases(u, es) > 0 ==> (v.count < 0 || v.count >= CEILING) && v.count != STOP_BIT)
  {
    var u := Next(s, Sub(t));
    UnpairedOpens(s, t);
    WindowCount(u, t, s.stopped, es);
    WindowEnd(Exec(u, es), t, s.stopped, HasStop(es), Releases(u, es));
  }

  /** An unpaired release is rolled back, its own repair leaving the counter that flag and holders
      demand, if and only if nobody holds a reference when it subtracts and neither BeginStop nor
      another release falls between the subtraction and the repair. */
  lemma RepairWorksIff(s: State, t: Thread, es: seq<Step>)
    requires Inv(s) && Idle(s, t)
    requires forall i :: 0 <= i < |es| ==> es[i] != Repair(t)
    requires Releases(Next(s, Sub(t)), es) < CEILING
    ensures var u := Next(s, Sub(t));
      var v := Next(Exec(u, es), Repair(t));
      && (t in u.repairing && |v.holding| <= CEILING && v.count == Encode(v.stopped, |v.holding|) <==>
          s.holding == {} && !HasStop(es) && Releases(u, es) == 0)
      && (s.holding == {} && HasStop(es) && Releases(u, es) == 0 ==> v.count == 0 && v.stopped)
      && (s.holding == {} && Releases(u, es) > 0 ==> (v.count < 0 || v.count >= CEILING) && v.count != STOP_BIT)
      && (s.holding != {} ==> Short(u) && u.holding == s.holding)
  {
    if s.holding == {} {
      RepairInWindow(s, t, es);
    } else {
      UndetectedIff(s, t);
    }
  }

  // ---- an unpaired release while others hold ----

  /** The counter reads one fewer than hold. */
  ghost predicate Short(s: State) {
    && 1 <= |s.holding| <= CEILING + 1
    && s.count == Encode(s.stopped, |s.holding| - 1)
    && (forall t :: t in s.loaded ==> 0 <= s.loaded[t] < CEILING && t !in s.holding)
    && s.repairing == {} && s.underflows == 0
  }

  /** It is noticed exactly when nobody holds; otherwise it takes a holder's count. */
  lemma UndetectedIff(s: State, t: Thread)
    requires Inv(s) && Idle(s, t)
    ensures t in Next(s, Sub(t)).repairing <==> s.holding == {}
    ensures s.holding != {} ==> Short(Next(s, Sub(t)))
  {
    if s.holding != {} {
      assert |s.holding| > 0;
      assert s.holding - {t} == s.holding;
    }
  }

  /** Then the last holder's own, rightful release is the one that is taken for an underflow. */
  lemma ShortStep(s: State, e: Step)
    requires Short(s) && (e.Sub? ==> e.t in s.holding)
    ensures if e.Sub? && s.holding == {e.t} then Window(Next(s, e), e.t, s.stopped, 0) else Short(Next(s, e))
    ensures s.stopped ==> Next(s, e).stopped
  {
    if e.Sub? {
      assert |s.holding - {e.t}| == |s.holding| - 1;
      if |s.holding| == 1 {
        var x :| x in s.holding;
        assert |s.holding - {x}| == 0;
        assert s.holding == {x};
      }
    } else if e.Cas? && e.t in s.loaded {
      assert |s.holding + {e.t}| == |s.holding| + 1;
    }
  }

  /** As long as somebody holds, on every schedule of paired use the counter stays one short. */
  lemma {:induction false} ShortWhileHeld(s: State, es: seq<Step>)
    requires Short(s) && Paired(s, es)
    requires forall i :: 0 <= i <= |es| ==> Exec(s, es[..i]).holding != {}
    ensures Short(Exec(s, es)) && (s.stopped ==> Exec(s, es).stopped)
  {
    if |es| > 0 {
      var before := es[..|es| - 1];
      PairedPrefix(s, es);
      forall i | 0 <= i <= |before| ensures Exec(s, before[..i]).holding != {} {
        assert before[..i] == es[..i];
      }
      ShortWhileHeld(s, before);
      assert es[..|es|] == es;
      ShortStep(Exec(s, before), es[|es| - 1]);
    }
  }

  /** And a drain succeeds while somebody holds: as soon as it is stopped with one holder left. */
  lemma DrainUnderHolder(s: State)
    requires Short(s)
    ensures s.count == STOP_BIT <==> s.stopped && |s.holding| == 1
    ensures ActiveCount(s.count) == -1 <==> s.stopped && |s.holding| == 1
    ensures |s.holding| == 1 ==> Next(s, BeginStop).count == STOP_BIT && Next(s, BeginStop).holding != {}
  {
    if s.count == STOP_BIT { EncodeInjective(s.stopped, |s.holding| - 1, true, 0); }
  }

  /** One such schedule: the stop bit is lost and a later Acquire succeeds. */
  lemma UnpairedReleaseCanLoseStop(t: Thread, u: Thread)
    requires t != u
    ensures var s := Next(Next(Next(INITIAL, Sub(t)), BeginStop), Repair(t));
      s.stopped && s.count == 0 && u in Next(Next(s, Load(u)), Cas(u)).holding
  {}

  /** One such schedule: u holds, t releases without a reference, and the drain succeeds. */
  lemma UnpairedReleaseDrainsHolder(t: Thread, u: Thread)
    requires t != u
    ensures var s := Next(Next(Next(Next(INITIAL, Load(u)), Cas(u)), Sub(t)), BeginStop);
      s.count == STOP_BIT && s.holding == {u} && s.underflows == 0
  {
    var s := Next(Next(INITIAL, Load(u)), Cas(u));
    assert s.holding == {u};
    assert s.holding - {t} == {u};
  }

  // ---- one object, called without interference ----

  /** SHINKEN_RUNDOWN. The ghost arguments name what the counter encodes on entry. */
  class RundownObject {
    var count: Long
    var underflows: nat

    constructor ()
      ensures count == Encode(false, 0) && underflows == 0
    {
      count, underflows := 0, 0;
    }

    method Acquire(ghost stopped: bool, ghost holders: nat) returns (ok: bool)
      requires holders <= CEILING && count == Encode(stopped, holders)
      modifies this`count
      ensures ok <==> !stopped && holders < CEILING
      ensures count == Encode(stopped, if ok then holders + 1 else holders)
    {
      var c := count;
      if c < 0 || c >= CEILING {
        return false;
      }
      count := Wrap(c + 1);
      ok := true;
    }

    method BeginStopping(ghost stopped: bool, ghost holders: nat)
      requires holders <= CEILING && count == Encode(stopped, holders)
      modifies this`count
      ensures count == Encode(true, holders)
    {
      count := SetStop(count);
    }

    method Release(ghost stopped: bool, ghost holders: nat)
      requires holders <= CEILING && count == Encode(stopped, holders)
      modifies this
      ensures count == Encode(stopped, if holders > 0 then holders - 1 else 0)
      ensures underflows == old(underflows) + if holders > 0 then 0 else 1
    {
      var before := count;
      count := Wrap(count - 1);
      if before == STOP_BIT || before == 0 {
        count := Wrap(count + 1);
        underflows := underflows + 1;
      }
    }

    /** ShRundownDrain without interference: the first poll decides. */
    method Drain(retries: nat, ghost stopped: bool, ghost holders: nat) returns (drained: bool)
      requires holders <= CEILING && count == Encode(stopped, holders)
      ensures drained <==> stopped && holders == 0
    {
      var i := 0;
      while true
        invariant i <= retries
        decreases retries - i
      {
        if count == STOP_BIT {
          return true;
        }
        if i >= retries {
          return false;
        }
        i := i + 1;
      }
    }
  }
}
