/** Start, rollback, quiesce and destroy of the driver's subsystems. Foreign calls are answers. */
module Lifecycle {
  import opened RuleTypes
  import opened Sequences
  import opened RuntimeState

  /** Completed start steps, the bits of g_SkSteps. */
  datatype Step = Device | Rules | EventQueue | Control | Inject | Flow | Bfe | Wfp

  /** What was done, in order. */
  datatype Act =
    | Quiesced(part: Part, ok: bool)   // a subsystem asked to stop
    | Freed(what: Thing)
    | SnapshotsStuck                   // the rule store could not free everything

  datatype Part =
    | ControlGate | WriteGate | EventThread | Injection | BfeCallbacks | WfpObjects | WorkItems | ThreadRecheck
  datatype Thing = Pools | FlowTable | Snapshots | ControlDevice

  /** A subsystem's answer to quiesce, with the causes it recorded itself. */
  datatype Answer = Answer(ok: bool, causes: seq<Reason>)

  datatype Answers = Answers(
    control: Answer, writable: bool, events: bool, injection: Answer, unsubscribe: bool, bfeDrain: bool,
    wfp: Answer, workItems: bool, threadRunning: bool,
    snapshots: bool)                   // SkRuleStoreShutdown frees everything

  /** Which start steps succeed; `bfeRunning` decides whether WFP is installed now. */
  datatype Starts = Starts(
    rules: bool, telemetry: bool, control: bool, inject: bool, flow: bool, bfe: bool, bfeRunning: bool, wfp: bool)

  /** What may still be called after DriverEntry. */
  datatype Call = Unload(o: Answers, w: Reports) | Report(ticks: seq<Tick>) | Activate

  /** Where the underflow reports of other threads fall in an unload: before each part, before the
      check, before EnterQuiescent's test and before its write, before the destroy's own test, before
      the store's test, before the store is done, and before the last check. */
  datatype Reports = Reports(
    parts: seq<seq<Tick>>, check: seq<Tick>, late: seq<Tick>, window: seq<Tick>,
    entry: seq<Tick>, tables: seq<Tick>, drain: seq<Tick>, gone: seq<Tick>)

  datatype Outcome = Started | RolledBack | Resident

  predicate IsFailure(a: Act) { a.SnapshotsStuck? || (a.Quiesced? && !a.ok) }

  ghost predicate HasFailure(t: seq<Act>) { exists i :: 0 <= i < |t| && IsFailure(t[i]) }

  /** Nothing is freed after a stop that failed or a snapshot that could not be freed. */
  ghost predicate Safe(t: seq<Act>) {
    forall i, j :: 0 <= i < j < |t| && IsFailure(t[i]) ==> !t[j].Freed?
  }

  function Frees(t: seq<Act>, what: Thing): nat {
    if |t| == 0 then 0 else Frees(t[..|t| - 1], what) + if t[|t| - 1] == Freed(what) then 1 else 0
  }

  lemma Later(t: seq<Act>, a: Act)
    ensures HasFailure(t + [a]) <==> HasFailure(t) || IsFailure(a)
    ensures Safe(t) && (a.Freed? ==> !HasFailure(t)) ==> Safe(t + [a])
    ensures forall what :: Frees(t + [a], what) == Frees(t, what) + if a == Freed(what) then 1 else 0
  {
    var u := t + [a];
    assert u[..|u| - 1] == t;
    assert forall i :: 0 <= i < |t| ==> u[i] == t[i];
    assert u[|t|] == a;
    if HasFailure(t) {
      var i :| 0 <= i < |t| && IsFailure(t[i]);
      assert IsFailure(u[i]);
    }
  }

  /** A stretch of teardown work with these ticks of other threads' reports. */
  ghost predicate Through(a: Log, b: Log, ticks: seq<Tick>) {
    && OnlyReports(a, b)
    && GateOf(b) == After(GateOf(a), ticks)
    && ((a.state.UnloadBlocked? ==> a.reason.Some?) ==> (b.state.UnloadBlocked? ==> b.reason.Some?))
  }

  lemma ThroughBoth(a: Log, b: Log, c: Log, r: seq<Tick>, q: seq<Tick>)
    requires Through(a, b, r) && Through(b, c, q)
    ensures Through(a, c, r + q)
  {
    AfterAppend(GateOf(a), r, q);
  }

  // ---- when an unload returns, and when the device goes ----

  /** ShRuntimeBeginTeardown, as the reports see it. */
  function Begun(g: Gate): Gate { g.(state := if g.state.Active? then Teardown else g.state) }

  /** What reports do before EnterQuiescent's test. */
  function Before(w: Reports): seq<Tick> { Flatten(w.parts) + w.check + w.late }

  /** What they do from its write to the last check. */
  function Behind(w: Reports): seq<Tick> { w.entry + w.tables + w.drain + w.gone }

  /** EnterQuiescent, from the check on: a strike between its test and its write is overwritten. */
  function QuiescentFrom(g: Gate, w: Reports): Gate {
    var test := After(g, w.late);
    var q := After(test, w.window);
    if test.state.Teardown? then q.(state := Quiescent) else q
  }

  /** What the check reads. */
  function Checked(g: Gate, w: Reports): Gate { After(Begun(g), Flatten(w.parts) + w.check) }

  function AtQuiescent(g: Gate, w: Reports): Gate { QuiescentFrom(Checked(g, w), w) }

  /** The destroy enters, and the store gives up its snapshots: it keeps them when it reads
      UNLOAD_BLOCKED. */
  ghost predicate Goes(q: Gate, store: bool, o: Answers, w: Reports) {
    && !q.state.UnloadBlocked? && !Strikes(q, w.entry)
    && (store ==> o.snapshots && !Strikes(q, w.entry + w.tables))
  }

  /** Everything stopped, and no report struck before the destroy was under way. In the window of
      EnterQuiescent a strike counts only if there is nothing to drain. */
  ghost predicate DestroyRuns(g: Gate, subscribed: bool, o: Answers, w: Reports) {
    && !g.state.UnloadBlocked? && QuiesceOk(subscribed, o)
    && !Strikes(Begun(g), Before(w))
    && (Begun(g).state.Teardown? || !Strikes(After(Begun(g), Before(w)), w.window))
    && !Strikes(AtQuiescent(g, w), w.entry)
  }

  /** The device goes exactly when the store then gives up its snapshots. */
  ghost predicate DeviceGoes(g: Gate, store: bool, subscribed: bool, o: Answers, w: Reports) {
    && DestroyRuns(g, subscribed, o, w)
    && (store ==> o.snapshots && !Strikes(AtQuiescent(g, w), w.entry + w.tables))
  }

  /** An unload returns exactly when the device goes and no report strikes up to the last check. */
  ghost predicate UnloadOk(g: Gate, store: bool, subscribed: bool, o: Answers, w: Reports) {
    && DeviceGoes(g, store, subscribed, o, w)
    && !Strikes(AtQuiescent(g, w), Behind(w))
  }

  /** The check and EnterQuiescent let a clean quiesce through exactly when DestroyRuns says so. */
  lemma CheckedWhen(g: Gate, w: Reports)
    requires !g.state.UnloadBlocked?
    ensures AtQuiescent(g, w).state.UnloadBlocked? <==>
      Strikes(Begun(g), Before(w))
      || (!Begun(g).state.Teardown? && Strikes(After(Begun(g), Before(w)), w.window))
  {
    var checked := Flatten(w.parts) + w.check;
    AfterAppend(Begun(g), checked, w.late);
    BlocksIff(Begun(g), checked);
    BlocksIff(After(Begun(g), checked), w.late);
    BlocksIff(Begun(g), Before(w));
    BlocksIff(After(Begun(g), Before(w)), w.window);
  }

  /** A blocked runtime stays blocked through the check and EnterQuiescent. */
  lemma BlockedStays(g: Gate, w: Reports)
    ensures Checked(g, w).state.UnloadBlocked? ==> AtQuiescent(g, w).state.UnloadBlocked?
    ensures !Checked(g, w).state.Active? && (g.state.UnloadBlocked? ==> Checked(g, w).state.UnloadBlocked?)
  {
    BlocksIff(Begun(g), Flatten(w.parts) + w.check);
    BlocksIff(Checked(g, w), w.late);
    BlocksIff(After(Checked(g, w), w.late), w.window);
  }

  lemma GoesWhen(g: Gate, store: bool, subscribed: bool, o: Answers, w: Reports)
    ensures DeviceGoes(g, store, subscribed, o, w) <==>
      QuiesceOk(subscribed, o) && !Checked(g, w).state.UnloadBlocked? && Goes(AtQuiescent(g, w), store, o, w)
    ensures DestroyRuns(g, subscribed, o, w) <==>
      && QuiesceOk(subscribed, o) && !Checked(g, w).state.UnloadBlocked?
      && !AtQuiescent(g, w).state.UnloadBlocked? && !Strikes(AtQuiescent(g, w), w.entry)
  {
    BlockedStays(g, w);
    if !g.state.UnloadBlocked? { CheckedWhen(g, w); }
  }

  lemma StrikesLater(q: Gate, a: seq<Tick>, b: seq<Tick>)
    requires !q.state.UnloadBlocked? && !Strikes(q, a)
    ensures After(q, a).state == q.state && (Strikes(After(q, a), b) <==> Strikes(q, a + b))
  {
    BlocksIff(q, a);
    AfterAppend(q, a, b);
    BlocksIff(After(q, a), b);
    BlocksIff(q, a + b);
  }

  lemma BehindInOrder(q: Gate, w: Reports)
    ensures After(After(After(q, w.entry), w.tables + w.drain), w.gone) == After(q, Behind(w))
  {
    AfterAppend(q, w.entry, w.tables + w.drain);
    Regroup(w.entry, w.tables, w.drain);
    AfterAppend(q, w.entry + w.tables + w.drain, w.gone);
  }

  // ---- which cause an unload or a rollback reports first ----

  /** The first cause one part records: another thread's report just before it, its own, its fallback. */
  function PartCause(a: Answer, fallback: Reason, ticks: seq<Tick>): Option<Reason> {
    if Test in ticks then Some(RundownUnderflow)
    else if |a.causes| > 0 then Some(a.causes[0])
    else if !a.ok then Some(fallback)
    else None
  }

  function BfeCause(subscribed: bool, o: Answers, ticks: seq<Tick>): Option<Reason> {
    if Test in ticks then Some(RundownUnderflow)
    else if subscribed && !o.unsubscribe then Some(BfeUnsubscribe)
    else if !o.bfeDrain then Some(BfeCallbackActive)
    else None
  }

  function Says(ok: bool): Answer { Answer(ok, []) }

  function SourceCause(o: Answers, r: seq<seq<Tick>>): Option<Reason>
    requires |r| == 4
  {
    Pick(Pick(PartCause(o.control, HandleContextsOpen, r[0]), PartCause(Says(!o.writable), RundownStuck, r[1])),
         Pick(PartCause(Says(o.events), EventThreadDrain, r[2]), PartCause(o.injection, InjectionDrain, r[3])))
  }

  function SinkCause(subscribed: bool, o: Answers, r: seq<seq<Tick>>): Option<Reason>
    requires |r| == 4
  {
    Pick(Pick(BfeCause(subscribed, o, r[0]), PartCause(o.wfp, EngineClose, r[1])),
         Pick(PartCause(Says(o.workItems), WorkItemDrain, r[2]),
              PartCause(Says(!o.threadRunning), EventThreadDrain, r[3])))
  }

  /** The first cause of a quiesce, in the order its parts are asked. */
  function QuiesceCause(subscribed: bool, o: Answers, r: seq<seq<Tick>>): Option<Reason>
    requires |r| == 8
  {
    Pick(SourceCause(o, r[..4]), SinkCause(subscribed, o, r[4..]))
  }

  /** The first cause of a destroy: a report up to the store's last use, or stuck snapshots. */
  function DestroyCause(tables: seq<Tick>, drain: seq<Tick>, stuck: bool): Option<Reason> {
    Pick(Pick(Reported(tables), Reported(drain)), if stuck then Some(RundownStuck) else None)
  }

  /** The first cause of EnterQuiescent and of what follows it, up to the last check. */
  function EndCause(o: Answers, store: bool, w: Reports): Option<Reason> {
    Pick(Reported(w.entry), Pick(DestroyCause(w.tables, w.drain, store && !o.snapshots), Reported(w.gone)))
  }

  /** The first cause that can come after a clean quiesce: a report, or snapshots that could not be
      freed, whichever is first. */
  function FinishCause(o: Answers, store: bool, w: Reports): Option<Reason> {
    Pick(Pick(Reported(w.check), Pick(Reported(w.late), Reported(w.window))), EndCause(o, store, w))
  }

  /** The first cause of a rollback's stops. */
  function StopCause(steps: set<Step>, o: Answers): Option<Reason> {
    Pick(PartCause(o.wfp, EngineClose, []),
    Pick(if Bfe in steps then BfeCause(true, o, []) else None,
    Pick(if Inject in steps then PartCause(o.injection, InjectionDrain, []) else None,
    Pick(if Control in steps then PartCause(o.control, HandleContextsOpen, []) else None,
         if EventQueue in steps then PartCause(Says(o.events), EventThreadDrain, []) else None))))
  }

  predicate BfeOk(subscribed: bool, o: Answers) { (subscribed ==> o.unsubscribe) && o.bfeDrain }

  /** Every part that unload asks has stopped. */
  predicate QuiesceOk(subscribed: bool, o: Answers) {
    && o.control.ok && !o.writable && o.events && o.injection.ok && BfeOk(subscribed, o) && o.wfp.ok
    && o.workItems && !o.threadRunning
  }

  function SourceActs(o: Answers): seq<Act> {
    [Quiesced(ControlGate, o.control.ok), Quiesced(WriteGate, !o.writable), Quiesced(EventThread, o.events),
     Quiesced(Injection, o.injection.ok)]
  }

  function SinkActs(subscribed: bool, o: Answers): seq<Act> {
    [Quiesced(BfeCallbacks, BfeOk(subscribed, o)), Quiesced(WfpObjects, o.wfp.ok), Quiesced(WorkItems, o.workItems),
     Quiesced(ThreadRecheck, !o.threadRunning)]
  }

  function QuiesceActs(subscribed: bool, o: Answers): seq<Act> { SourceActs(o) + SinkActs(subscribed, o) }

  lemma {:induction false} OnlyStops(t: seq<Act>, acts: seq<Act>)
    requires forall i :: 0 <= i < |acts| ==> acts[i].Quiesced?
    ensures Safe(t) ==> Safe(t + acts)
    ensures HasFailure(t + acts) <==> HasFailure(t) || HasFailure(acts)
    ensures forall what :: Frees(t + acts, what) == Frees(t, what)
  {
    if |acts| == 0 {
      assert t + acts == t;
    } else {
      var m := |acts| - 1;
      OnlyStops(t, acts[..m]);
      Later(t + acts[..m], acts[m]);
      Later(acts[..m], acts[m]);
      assert t + acts == (t + acts[..m]) + [acts[m]] && acts == acts[..m] + [acts[m]];
    }
  }

  class Driver {
    const rt: Runtime
    var steps: set<Step>
    var wdmDevice: bool     // g_SkDevice is set
    var device: bool        // the control device exists
    var controlReady: bool
    var store: bool         // the rule store is initialised
    var bfeHandle: bool
    var deferred: bool
    ghost var trace: seq<Act>

    /** Blocked keeps a cause; a failure means blocked; nothing is freed after one; the device is
        freed at most once. */
    ghost predicate Valid()
      reads this, rt, rt.history
    {
      Sound() && (HasFailure(trace) ==> rt.state.UnloadBlocked?)
    }

    ghost predicate Sound()
      reads this, rt, rt.history
    {
      && rt.Valid()
      && (rt.state.UnloadBlocked? ==> rt.reason.Some?)
      && Safe(trace)
      && Frees(trace, ControlDevice) + (if device then 1 else 0) == 1
    }

    /** DriverEntry up to a successful SkDeviceCreate. */
    constructor ()
      ensures Valid() && fresh(rt) && fresh(rt.history)
      ensures rt.View() == Log(Uninitialized, None, [], 0) && trace == []
      ensures device && !controlReady && !store && !bfeHandle
    {
      rt := new Runtime();
      steps, wdmDevice, device, controlReady, store, bfeHandle, deferred := {}, false, true, false, false, false, false;
      trace := [];
    }

    method RecordAll(causes: seq<Reason>)
      requires rt.Valid()
      modifies rt, rt.history
      ensures rt.Valid() && OnlyReports(old(rt.View()), rt.View()) && GateOf(rt.View()) == GateOf(old(rt.View()))
      ensures rt.reason == Pick(old(rt.reason), if |causes| > 0 then Some(causes[0]) else None)
    {
      var i := 0;
      while i < |causes|
        invariant 0 <= i <= |causes|
        invariant rt.Valid() && OnlyReports(old(rt.View()), rt.View()) && GateOf(rt.View()) == GateOf(old(rt.View()))
        invariant rt.reason == Pick(old(rt.reason), if i > 0 then Some(causes[0]) else None)
      {
        rt.RecordBlock(Some(causes[i]));
        i := i + 1;
      }
    }

    /** One subsystem's quiesce: its own causes, then the fallback cause if there is none yet.
        `ticks`: what other threads' reports do just before. */
    method Ask(part: Part, answer: Answer, fallback: Reason, ticks: seq<Tick>) returns (ok: bool)
      requires rt.Valid()
      modifies rt, rt.history, this`trace
      ensures rt.Valid()
      ensures ok == answer.ok
      ensures trace == old(trace) + [Quiesced(part, ok)]
      ensures Through(old(rt.View()), rt.View(), ticks)
      ensures rt.reason == Pick(old(rt.reason), PartCause(answer, fallback, ticks))
    {
      rt.Interfere(ticks);
      ghost var was := rt.View();
      RecordAll(answer.causes);
      ok := answer.ok;
      if !ok {
        rt.RecordIfNone(fallback);
      }
      trace := trace + [Quiesced(part, ok)];
      OnlyReportsTransitive(old(rt.View()), was, rt.View());
    }

    /** Two parts in a row; the second is asked whatever the first answered. */
    method AskBoth(p: Part, a: Answer, f: Reason, r: seq<Tick>, q: Part, b: Answer, g: Reason, u: seq<Tick>)
      returns (ok: bool)
      requires rt.Valid()
      modifies rt, rt.history, this`trace
      ensures rt.Valid()
      ensures ok == (a.ok && b.ok)
      ensures trace == old(trace) + [Quiesced(p, a.ok), Quiesced(q, b.ok)]
      ensures Through(old(rt.View()), rt.View(), r + u)
      ensures rt.reason == Pick(old(rt.reason), Pick(PartCause(a, f, r), PartCause(b, g, u)))
    {
      var first := Ask(p, a, f, r);
      ghost var middle := rt.View();
      var second := Ask(q, b, g, u);
      ThroughBoth(old(rt.View()), middle, rt.View(), r, u);
      ok := first && second;
    }

    /** skBfeQuiesce: a failed unsubscribe keeps the handle and skips the drain. */
    method AskBfe(o: Answers, ticks: seq<Tick>) returns (ok: bool)
      requires rt.Valid()
      modifies rt, rt.history, this`trace, this`bfeHandle
      ensures rt.Valid()
      ensures ok == BfeOk(old(bfeHandle), o) && bfeHandle == (old(bfeHandle) && !o.unsubscribe)
      ensures trace == old(trace) + [Quiesced(BfeCallbacks, ok)]
      ensures Through(old(rt.View()), rt.View(), ticks)
      ensures rt.reason == Pick(old(rt.reason), BfeCause(old(bfeHandle), o, ticks))
    {
      if bfeHandle && !o.unsubscribe {
        ok := Ask(BfeCallbacks, Says(false), BfeUnsubscribe, ticks);
        return;
      }
      bfeHandle := false;
      ok := Ask(BfeCallbacks, Says(o.bfeDrain), BfeCallbackActive, ticks);
    }

    /** The first four parts of SkLifecycleQuiesce. */
    method QuiesceSources(o: Answers, reports: seq<seq<Tick>>) returns (ok: bool)
      requires rt.Valid() && |reports| == 4
      modifies rt, rt.history, this`trace
      ensures rt.Valid()
      ensures ok == (o.control.ok && !o.writable && o.events && o.injection.ok)
      ensures trace == old(trace) + SourceActs(o)
      ensures Through(old(rt.View()), rt.View(), Flatten(reports))
      ensures rt.reason == Pick(old(rt.reason), SourceCause(o, reports))
    {
      var a := AskBoth(ControlGate, o.control, HandleContextsOpen, reports[0],
                       WriteGate, Says(!o.writable), RundownStuck, reports[1]);
      ghost var middle := rt.View();
      var b := AskBoth(EventThread, Says(o.events), EventThreadDrain, reports[2],
                       Injection, o.injection, InjectionDrain, reports[3]);
      ThroughBoth(old(rt.View()), middle, rt.View(), reports[0] + reports[1], reports[2] + reports[3]);
      FourReports(reports);
      ok := a && b;
    }

    /** The last four parts. */
    method QuiesceSinks(o: Answers, reports: seq<seq<Tick>>) returns (ok: bool)
      requires rt.Valid() && |reports| == 4
      modifies rt, rt.history, this`trace, this`bfeHandle
      ensures rt.Valid()
      ensures ok == (BfeOk(old(bfeHandle), o) && o.wfp.ok && o.workItems && !o.threadRunning)
      ensures trace == old(trace) + SinkActs(old(bfeHandle), o)
      ensures Through(old(rt.View()), rt.View(), Flatten(reports))
      ensures rt.reason == Pick(old(rt.reason), SinkCause(old(bfeHandle), o, reports))
    {
      var a := AskEngine(o, reports[0], reports[1]);
      ghost var middle := rt.View();
      var b := AskBoth(WorkItems, Says(o.workItems), WorkItemDrain, reports[2],
                       ThreadRecheck, Says(!o.threadRunning), EventThreadDrain, reports[3]);
      ThroughBoth(old(rt.View()), middle, rt.View(), reports[0] + reports[1], reports[2] + reports[3]);
      FourReports(reports);
      ok := a && b;
    }

    method AskEngine(o: Answers, r: seq<Tick>, u: seq<Tick>) returns (ok: bool)
      requires rt.Valid()
      modifies rt, rt.history, this`trace, this`bfeHandle
      ensures rt.Valid()
      ensures ok == (BfeOk(old(bfeHandle), o) && o.wfp.ok)
      ensures trace == old(trace) + [Quiesced(BfeCallbacks, BfeOk(old(bfeHandle), o)), Quiesced(WfpObjects, o.wfp.ok)]
      ensures Through(old(rt.View()), rt.View(), r + u)
      ensures rt.reason == Pick(old(rt.reason),
                                Pick(BfeCause(old(bfeHandle), o, r), PartCause(o.wfp, EngineClose, u)))
    {
      var first := AskBfe(o, r);
      ghost var middle := rt.View();
      var second := Ask(WfpObjects, o.wfp, EngineClose, u);
      ThroughBoth(old(rt.View()), middle, rt.View(), r, u);
      ok := first && second;
    }

    /** SkLifecycleQuiesce: all eight parts are asked, whatever the earlier ones answered. */
    method Quiesce(o: Answers, reports: seq<seq<Tick>>) returns (ok: bool)
      requires rt.Valid() && |reports| == 8
      modifies rt, rt.history, this`trace, this`bfeHandle
      ensures rt.Valid()
      ensures ok == QuiesceOk(old(bfeHandle), o)
      ensures trace == old(trace) + QuiesceActs(old(bfeHandle), o)
      ensures Through(old(rt.View()), rt.View(), Flatten(reports))
      ensures rt.reason == Pick(old(rt.reason), QuiesceCause(old(bfeHandle), o, reports))
      ensures !ok ==> rt.reason.Some?
    {
      var a := QuiesceSources(o, reports[..4]);
      ghost var middle := rt.View();
      var b := QuiesceSinks(o, reports[4..]);
      ThroughBoth(old(rt.View()), middle, rt.View(), Flatten(reports[..4]), Flatten(reports[4..]));
      FlattenAppend(reports[..4], reports[4..]);
      assert reports == reports[..4] + reports[4..];
      ok := a && b;
    }

    // ---- destroy ----

    /** SkRuleStoreShutdown behind its tests. */
    method FreeSnapshots(frees: bool)
      requires Valid() && !HasFailure(trace)
      modifies rt, rt.history, this`store, this`trace
      ensures Valid() && OnlyReports(old(rt.View()), rt.View())
      ensures if frees then
          rt.View() == old(rt.View()) && !store && !HasFailure(trace) && trace == old(trace) + [Freed(Snapshots)]
        else
          && rt.state.UnloadBlocked? && rt.reason == Pick(old(rt.reason), Some(RundownStuck))
          && store == old(store) && trace == old(trace) + [SnapshotsStuck]
    {
      if frees {
        store := false;
        Later(trace, Freed(Snapshots));
        trace := trace + [Freed(Snapshots)];
      } else {
        rt.EnterUnloadBlocked(Some(RundownStuck));
        Later(trace, SnapshotsStuck);
        trace := trace + [SnapshotsStuck];
      }
    }

    /** SkRuleStoreShutdown, as far as the lifecycle sees it. `drain`: other threads' reports after
        its test of the state. */
    method Shutdown(frees: bool, drain: seq<Tick>) returns (ok: bool)
      requires Valid() && !HasFailure(trace)
      modifies rt, rt.history, this`store, this`trace
      ensures Valid() && OnlyReports(old(rt.View()), rt.View())
      ensures ok == (!old(store) || (!old(rt.state).UnloadBlocked? && frees))
      ensures ok ==> GateOf(rt.View()) == After(old(GateOf(rt.View())), drain) && !store && !HasFailure(trace)
      ensures ok ==> trace == old(trace) + If(old(store), Freed(Snapshots))
      ensures ok && drain == [] ==> rt.View() == old(rt.View())
      ensures !ok ==> rt.state.UnloadBlocked?
      ensures !ok ==> trace == old(trace) + If(!old(rt.state).UnloadBlocked?, SnapshotsStuck)
      ensures rt.reason == Pick(old(rt.reason), DestroyCause([], drain, !ok))
    {
      ghost var g := GateOf(rt.View());
      BlocksIff(g, drain);
      var inited, blocked := store, rt.state == UnloadBlocked;
      rt.Interfere(drain);
      ok := !inited || (!blocked && frees);
      if inited && !blocked {
        FreeSnapshots(frees);
      }
    }

    /** SkDeviceDelete: nothing the second time. */
    method DeleteDevice()
      requires Valid() && !HasFailure(trace)
      modifies this`device, this`trace
      ensures Valid() && !device && !HasFailure(trace)
      ensures trace == old(trace) + (if old(device) then [Freed(ControlDevice)] else [])
    {
      if device {
        device := false;
        Later(trace, Freed(ControlDevice));
        trace := trace + [Freed(ControlDevice)];
      }
    }

    /** SkControlDestroy */
    method ControlDestroy()
      requires Valid() && !HasFailure(trace)
      modifies this`device, this`controlReady, this`trace
      ensures Valid() && !controlReady && !HasFailure(trace)
      ensures device == (old(device) && !old(controlReady))
      ensures trace == old(trace) + (if old(device) && old(controlReady) then [Freed(ControlDevice)] else [])
    {
      if controlReady {
        controlReady := false;
        DeleteDevice();
      }
    }

    method Free(what: Thing)
      requires Valid() && !HasFailure(trace) && what != ControlDevice
      modifies this`trace
      ensures Valid() && !HasFailure(trace)
      ensures trace == old(trace) + [Freed(what)]
    {
      Later(trace, Freed(what));
      trace := trace + [Freed(what)];
    }

    /** SkInjectDestroy, SkFlowDestroy */
    method FreeTables()
      requires Valid() && !HasFailure(trace)
      modifies this`trace
      ensures Valid() && !HasFailure(trace)
      ensures trace == old(trace) + [Freed(Pools), Freed(FlowTable)]
    {
      Free(Pools);
      Free(FlowTable);
    }

    /** The same with the reports up to the store's test. */
    method FreeTablesAmid(tables: seq<Tick>)
      requires Valid() && !HasFailure(trace)
      modifies this`trace, rt, rt.history
      ensures Valid() && !HasFailure(trace) && OnlyReports(old(rt.View()), rt.View())
      ensures trace == old(trace) + [Freed(Pools), Freed(FlowTable)]
      ensures GateOf(rt.View()) == After(old(GateOf(rt.View())), tables)
      ensures rt.reason == Pick(old(rt.reason), Reported(tables))
    {
      FreeTables();
      rt.Interfere(tables);
    }

    method DropDevice()
      requires Valid() && !HasFailure(trace)
      modifies this`device, this`controlReady, this`trace
      ensures Valid() && !device && !HasFailure(trace)
      ensures trace == old(trace) + (if old(device) then [Freed(ControlDevice)] else [])
    {
      ControlDestroy();
      DeleteDevice();
    }

    method BlockAgain()
      requires Valid() && rt.state.UnloadBlocked?
      modifies rt, rt.history
      ensures Valid() && rt.state.UnloadBlocked? && rt.reason == old(rt.reason)
      ensures OnlyReports(old(rt.View()), rt.View())
    {
      rt.EnterUnloadBlocked(Some(RundownStuck));
    }

    /** The destroy from the store on. */
    method DestroyStore(o: Answers, drain: seq<Tick>)
      requires Valid() && !HasFailure(trace)
      modifies this, rt, rt.history
      ensures Valid() && OnlyReports(old(rt.View()), rt.View())
      ensures rt.reason == Pick(old(rt.reason), DestroyCause([], drain, old(store) && !o.snapshots))
      ensures if old(store) ==> !old(rt.state).UnloadBlocked? && o.snapshots then
          && GateOf(rt.View()) == After(old(GateOf(rt.View())), drain)
          && !device && !store && steps == {} && !wdmDevice
          && trace == old(trace) + (If(old(store), Freed(Snapshots)) + If(old(device), Freed(ControlDevice)))
        else
          && rt.state.UnloadBlocked? && device == old(device) && steps == old(steps) && wdmDevice == old(wdmDevice)
          && trace == old(trace) + If(!old(rt.state).UnloadBlocked?, SnapshotsStuck)
    {
      var ok := Shutdown(o.snapshots, drain);
      ghost var middle := rt.View();
      Regroup(old(trace), If(old(store), Freed(Snapshots)), If(device, Freed(ControlDevice)));
      if ok {
        DropAll();
      } else {
        BlockAgain();
        OnlyReportsTransitive(old(rt.View()), middle, rt.View());
      }
    }

    method DropAll()
      requires Valid() && !HasFailure(trace)
      modifies this
      ensures Valid() && !device && steps == {} && !wdmDevice && store == old(store)
      ensures trace == old(trace) + If(old(device), Freed(ControlDevice))
    {
      DropDevice();
      steps := {};
      wdmDevice := false;
    }

    /** The destroy once it is allowed: a store that will not free its snapshots ends the chain before
        the device. */
    method DestroyAll(o: Answers, tables: seq<Tick>, drain: seq<Tick>)
      requires Valid() && !HasFailure(trace)
      modifies this, rt, rt.history
      ensures Valid() && OnlyReports(old(rt.View()), rt.View())
      ensures rt.reason == Pick(old(rt.reason), DestroyCause(tables, drain, old(store) && !o.snapshots))
      ensures var g := After(old(GateOf(rt.View())), tables);
        if old(store) ==> !g.state.UnloadBlocked? && o.snapshots then
          && GateOf(rt.View()) == After(g, drain)
          && !device && !store && steps == {} && !wdmDevice
          && trace == old(trace) + DestroyActs(old(store), old(device))
        else
          && rt.state.UnloadBlocked? && device == old(device) && steps == old(steps) && wdmDevice == old(wdmDevice)
          && trace == old(trace) + [Freed(Pools), Freed(FlowTable)] + If(!g.state.UnloadBlocked?, SnapshotsStuck)
    {
      Regroup(trace, [Freed(Pools), Freed(FlowTable)], If(store, Freed(Snapshots)) + If(device, Freed(ControlDevice)));
      FreeTablesAmid(tables);
      ghost var middle := rt.View();
      DestroyStore(o, drain);
      OnlyReportsTransitive(old(rt.View()), middle, rt.View());
    }

    /** SkLifecycleDestroy: refused unless quiescent or never active. */
    method Destroy(o: Answers, tables: seq<Tick>, drain: seq<Tick>)
      requires Valid()
      modifies this, rt, rt.history
      ensures Valid() && OnlyReports(old(rt.View()), rt.View())
      ensures !(old(rt.state).Quiescent? || old(rt.state).Uninitialized?) ==>
        trace == old(trace) && device == old(device) && store == old(store) && rt.View() == old(rt.View())
      ensures old(rt.state).Quiescent? || old(rt.state).Uninitialized? ==>
        rt.reason == Pick(old(rt.reason), DestroyCause(tables, drain, old(store) && !o.snapshots))
      ensures old(rt.state).Quiescent? || old(rt.state).Uninitialized? ==>
        if old(store) ==> o.snapshots && !Strikes(old(GateOf(rt.View())), tables) then
          && GateOf(rt.View()) == After(old(GateOf(rt.View())), tables + drain)
          && !device && !store && steps == {} && !wdmDevice
          && trace == old(trace) + DestroyActs(old(store), old(device))
        else
          && rt.state.UnloadBlocked? && device == old(device) && steps == old(steps) && wdmDevice == old(wdmDevice)
          && trace == old(trace) + [Freed(Pools), Freed(FlowTable)]
                        + If(!Strikes(old(GateOf(rt.View())), tables), SnapshotsStuck)
    {
      if !rt.DestroyAllowed() {
        return;
      }
      BlocksIff(GateOf(rt.View()), tables);
      AfterAppend(GateOf(rt.View()), tables, drain);
      DestroyAll(o, tables, drain);
    }

    // ---- start and its rollback ----

    method AskIf(done: bool, part: Part, answer: Answer, fallback: Reason) returns (ok: bool)
      requires rt.Valid() && rt.state.Uninitialized?
      modifies rt, rt.history, this`trace
      ensures rt.Valid() && rt.state.Uninitialized?
      ensures rt.reason == Pick(old(rt.reason), if done then PartCause(answer, fallback, []) else None)
      ensures ok == (done ==> answer.ok)
      ensures trace == old(trace) + If(done, Quiesced(part, answer.ok))
    {
      ok := true;
      if done {
        ok := Ask(part, answer, fallback, []);
      }
    }

    method AskBfeIf(done: bool, o: Answers) returns (ok: bool)
      requires rt.Valid() && rt.state.Uninitialized? && (done ==> bfeHandle)
      modifies rt, rt.history, this`trace, this`bfeHandle
      ensures rt.Valid() && rt.state.Uninitialized?
      ensures rt.reason == Pick(old(rt.reason), if done then BfeCause(true, o, []) else None)
      ensures ok == (done ==> BfeOk(true, o))
      ensures trace == old(trace) + If(done, Quiesced(BfeCallbacks, BfeOk(true, o)))
    {
      ok := true;
      if done {
        ok := AskBfe(o, []);
      }
    }

    /** The stopping half of skLifecycleRollback: only completed steps are asked, WFP always. */
    method StopStarted(o: Answers) returns (ok: bool)
      requires rt.Valid() && rt.state.Uninitialized? && (Bfe in steps ==> bfeHandle)
      modifies rt, rt.history, this`trace, this`bfeHandle
      ensures rt.Valid() && rt.state.Uninitialized?
      ensures ok == StopOk(steps, o)
      ensures trace == old(trace) + StopActs(steps, o)
      ensures rt.reason == Pick(old(rt.reason), StopCause(steps, o))
      ensures !ok ==> rt.reason.Some?
    {
      var a := AskIf(true, WfpObjects, o.wfp, EngineClose);
      var b := AskBfeIf(Bfe in steps, o);
      var c := AskIf(Inject in steps, Injection, o.injection, InjectionDrain);
      var d := AskIf(Control in steps, ControlGate, o.control, HandleContextsOpen);
      var e := AskIf(EventQueue in steps, EventThread, Says(o.events), EventThreadDrain);
      ok := a && b && c && d && e;
      Five(old(trace), If(true, Quiesced(WfpObjects, o.wfp.ok)),
           If(Bfe in steps, Quiesced(BfeCallbacks, BfeOk(true, o))),
           If(Inject in steps, Quiesced(Injection, o.injection.ok)),
           If(Control in steps, Quiesced(ControlGate, o.control.ok)),
           If(EventQueue in steps, Quiesced(EventThread, o.events)));
    }

    method FreeIf(done: bool, what: Thing)
      requires Valid() && !HasFailure(trace) && what != ControlDevice
      modifies this`trace
      ensures Valid() && !HasFailure(trace)
      ensures trace == old(trace) + If(done, Freed(what))
    {
      if done {
        Free(what);
      }
    }

    method ShutdownIf(done: bool, frees: bool) returns (ok: bool)
      requires Valid() && !HasFailure(trace) && !rt.state.UnloadBlocked? && (done <==> store)
      modifies rt, rt.history, this`store, this`trace
      ensures Valid() && ok == (done ==> frees)
      ensures ok ==> rt.View() == old(rt.View()) && !store && !HasFailure(trace)
      ensures ok ==> trace == old(trace) + If(done, Freed(Snapshots))
      ensures !ok ==> rt.state.UnloadBlocked? && device == old(device)
      ensures !ok ==> rt.reason == Pick(old(rt.reason), Some(RundownStuck))
    {
      ok := true;
      if done {
        ok := Shutdown(frees, []);
      }
    }

    method DropStarted()
      requires Valid() && !HasFailure(trace) && Device in steps
      modifies this`device, this`controlReady, this`trace
      ensures Valid() && !HasFailure(trace) && !device
      ensures trace == old(trace) + If(old(device), Freed(ControlDevice))
    {
      if Control in steps {
        ControlDestroy();
      }
      if Device in steps {
        DeleteDevice();
      }
    }

    method FreeTablesIf()
      requires Valid() && !HasFailure(trace)
      modifies this`trace
      ensures Valid() && !HasFailure(trace)
      ensures trace == old(trace) + (If(Inject in steps, Freed(Pools)) + If(Flow in steps, Freed(FlowTable)))
    {
      FreeIf(Inject in steps, Pools);
      FreeIf(Flow in steps, FlowTable);
    }

    method FreeMemory(o: Answers) returns (ok: bool)
      requires Valid() && rt.state.Uninitialized? && (Rules in steps <==> store)
      modifies this`store, this`trace, rt, rt.history
      ensures Valid() && ok == (Rules in steps ==> o.snapshots)
      ensures ok ==> rt.View() == old(rt.View()) && !store && trace == old(trace) + FreeActs(steps)
      ensures !ok ==> rt.state.UnloadBlocked? && rt.reason == Pick(old(rt.reason), Some(RundownStuck))
    {
      FreeTablesIf();
      ok := ShutdownIf(Rules in steps, o.snapshots);
    }

    /** The freeing half, once everything asked has stopped. */
    method FreeStarted(o: Answers) returns (ok: bool)
      requires Valid() && rt.state.Uninitialized? && Device in steps && (Rules in steps <==> store)
      modifies this`steps, this`wdmDevice, this`device, this`controlReady, this`store, this`trace, rt, rt.history
      ensures Valid()
      ensures ok == (Rules in old(steps) ==> o.snapshots)
      ensures ok ==> rt.View() == old(rt.View()) && !device && steps == {} && !wdmDevice && !store
      ensures ok ==> trace == old(trace) + FreeActs(old(steps)) + If(old(device), Freed(ControlDevice))
      ensures !ok ==> rt.state.UnloadBlocked? && device == old(device)
      ensures !ok ==> rt.reason == Pick(old(rt.reason), Some(RundownStuck))
    {
      ok := FreeMemory(o);
      if ok {
        DropStarted();
        steps := {};
        wdmDevice := false;
      }
    }

    /** skLifecycleRollback */
    method Rollback(o: Answers) returns (ok: bool)
      requires Valid() && rt.state.Uninitialized? && Device in steps && (Rules in steps <==> store)
      requires Bfe in steps ==> bfeHandle
      modifies this, rt, rt.history
      ensures ok == (StopOk(old(steps), o) && (Rules in old(steps) ==> o.snapshots))
      ensures Sound() && (!ok ==> rt.reason.Some?)
      ensures ok ==> Valid() && rt.state.Uninitialized? && !device && steps == {} && !wdmDevice && !store
      ensures !ok ==> device == old(device)
      ensures ok ==> trace == old(trace) + StopActs(old(steps), o) + FreeActs(old(steps))
                              + If(old(device), Freed(ControlDevice))
      ensures !ok ==> rt.reason == Pick(old(rt.reason), Pick(StopCause(old(steps), o), Some(RundownStuck)))
      ensures !StopOk(old(steps), o) ==> trace == old(trace) + StopActs(old(steps), o)
    {
      var torn := rt.BeginTeardown();
      StopsFail(trace, steps, o);
      ok := StopStarted(o);
      if !ok {
        return;
      }
      ok := FreeStarted(o);
    }

    /** SkLifecycleStart, right after SkDeviceCreate. */
    method Start(s: Starts, o: Answers) returns (out: Outcome)
      requires Valid() && rt.state.Uninitialized? && device && !store && !bfeHandle
      modifies this, rt, rt.history
      ensures Valid()
      ensures out.Started? <==> AllSteps(s)
      ensures out.Started? <==>
        && s.rules && s.telemetry && s.control && s.inject && s.flow && s.bfe && (s.bfeRunning ==> s.wfp)
      ensures out.Started? ==> rt.View() == old(rt.View()) && trace == old(trace) && device && store && bfeHandle
      ensures !out.Started? ==>
        (out.RolledBack? <==> StopOk(Completed(s), o) && (Rules in Completed(s) ==> o.snapshots))
      ensures out.RolledBack? ==> rt.state.Uninitialized? && !device && !store && !HasFailure(trace)
      ensures out.RolledBack? ==> trace == old(trace) + StopActs(Completed(s), o) + FreeActs(Completed(s))
                                           + [Freed(ControlDevice)]
      ensures out.Resident? ==> rt.state.UnloadBlocked? && rt.reason.Some? && device
      ensures out.Resident? ==>
        rt.reason == Pick(old(rt.reason), Pick(StopCause(Completed(s), o), Some(RundownStuck)))
      ensures !out.Started? && !StopOk(Completed(s), o) ==> trace == old(trace) + StopActs(Completed(s), o)
    {
      var complete := RunSteps(s);
      if complete {
        return Started;
      }
      var ok := Rollback(o);
      if !ok {
        rt.EnterUnloadBlocked(rt.reason);
        return Resident;
      }
      out := RolledBack;
    }

    /** The start steps in order, up to the first that fails. */
    method RunSteps(s: Starts) returns (complete: bool)
      requires !store && !bfeHandle
      modifies this`steps, this`wdmDevice, this`controlReady, this`store, this`bfeHandle, this`deferred
      ensures steps == Completed(s) && complete == AllSteps(s)
      ensures store == (Rules in steps) && bfeHandle == (Bfe in steps)
      ensures complete ==> (deferred <==> !s.bfeRunning)
    {
      steps, wdmDevice, deferred, complete := {Device}, true, false, false;
      if !s.rules { return; }
      store := true;
      steps := steps + {Rules};
      if !s.telemetry { return; }
      steps := steps + {EventQueue};
      if !s.control { return; }
      controlReady := true;
      steps := steps + {Control};
      if !s.inject { return; }
      steps := steps + {Inject};
      if !s.flow { return; }
      steps := steps + {Flow};
      if !s.bfe { return; }
      bfeHandle := true;
      steps := steps + {Bfe};
      if s.bfeRunning {
        if !s.wfp { return; }
        steps := steps + {Wfp};
      } else {
        deferred := true;
      }
      complete := true;
    }

    // ---- unload ----

    /** ShRuntimeRunUnload up to its check. */
    method QuiesceFirst(o: Answers, w: Reports) returns (stopped: bool)
      requires Valid() && |w.parts| == 8
      modifies this`trace, this`bfeHandle, rt, rt.history
      ensures Sound() && stopped == QuiesceOk(old(bfeHandle), o)
      ensures HasFailure(trace) ==> !stopped || rt.state.UnloadBlocked?
      ensures trace == old(trace) + QuiesceActs(old(bfeHandle), o)
      ensures GateOf(rt.View()) == Checked(old(GateOf(rt.View())), w) && !rt.state.Active?
      ensures rt.reason == Pick(old(rt.reason), Pick(QuiesceCause(old(bfeHandle), o, w.parts),
                                                     Reported(w.check)))
      ensures !stopped ==> rt.reason.Some?
    {
      AfterAppend(Begun(GateOf(rt.View())), Flatten(w.parts), w.check);
      BlockedStays(GateOf(rt.View()), w);
      QuiesceActsFail(trace, bfeHandle, o);
      var torn := rt.BeginTeardown();
      stopped := Quiesce(o, w.parts);
      rt.Interfere(w.check);
    }

    /** The failing branch of the check. */
    method StayResident()
      requires Sound()
      modifies rt, rt.history
      ensures Valid() && rt.state.UnloadBlocked? && rt.reason == Pick(old(rt.reason), Some(RundownStuck))
    {
      rt.RecordIfNone(RundownStuck);
      rt.EnterUnloadBlocked(rt.reason);
    }

    /** ShRuntimeRunUnload(SkLifecycleQuiesce, NULL, SkLifecycleDestroy, NULL). `w` says where the
        tests and writes of other threads' underflow reports fall. */
    method RunUnload(o: Answers, w: Reports) returns (ok: bool)
      requires Valid() && |w.parts| == 8
      modifies this, rt, rt.history
      ensures Valid()
      ensures ok <==> UnloadOk(old(GateOf(rt.View())), old(store), old(bfeHandle), o, w)
      ensures !device && old(device) ==>
        && o.control.ok && !o.writable && o.events && o.injection.ok && (old(bfeHandle) ==> o.unsubscribe)
        && o.bfeDrain && o.wfp.ok && o.workItems && !o.threadRunning && (old(store) ==> o.snapshots)
      ensures device == (old(device) && !DeviceGoes(old(GateOf(rt.View())), old(store), old(bfeHandle), o, w))
      ensures DeviceGoes(old(GateOf(rt.View())), old(store), old(bfeHandle), o, w) ==>
        !store && trace == old(trace) + QuiesceActs(old(bfeHandle), o) + DestroyActs(old(store), old(device))
      ensures !DestroyRuns(old(GateOf(rt.View())), old(bfeHandle), o, w) ==>
        trace == old(trace) + QuiesceActs(old(bfeHandle), o)
      ensures ok ==> GateOf(rt.View()) == After(AtQuiescent(old(GateOf(rt.View())), w), Behind(w))
      ensures !ok ==> rt.state.UnloadBlocked? && rt.reason.Some?
      ensures rt.reason == Pick(old(rt.reason), Pick(QuiesceCause(old(bfeHandle), o, w.parts),
                                                     FinishCause(o, old(store), w)))
      ensures ok && Test in w.window ==> Some(RundownUnderflow) in rt.causes
    {
      GoesWhen(GateOf(rt.View()), store, bfeHandle, o, w);
      var stopped := QuiesceFirst(o, w);
      if !stopped || rt.state == UnloadBlocked {
        StayResident();
        return false;
      }
      ok := FinishUnload(o, w);
    }

    /** Whatever is called once the runtime is blocked: it stays blocked with its first cause, every
        unload is refused, the device stays and nothing is freed. */
    method RunBlocked(calls: seq<Call>) returns (refused: bool)
      requires Valid() && rt.state.UnloadBlocked?
      requires forall i :: 0 <= i < |calls| && calls[i].Unload? ==> |calls[i].w.parts| == 8
      modifies this, rt, rt.history
      ensures Valid() && rt.state.UnloadBlocked? && refused
      ensures rt.reason.Some? && rt.reason == old(rt.reason) && device == old(device)
      ensures forall what :: Frees(trace, what) == old(Frees(trace, what))
    {
      refused := true;
      var i := 0;
      while i < |calls|
        invariant 0 <= i <= |calls|
        invariant Valid() && rt.state.UnloadBlocked? && refused && rt.reason == old(rt.reason) && device == old(device)
        invariant forall what :: Frees(trace, what) == old(Frees(trace, what))
      {
        match calls[i] {
          case Unload(o, w) =>
            OnlyStops(trace, QuiesceActs(bfeHandle, o));
            var ok := RunUnload(o, w);
            refused := refused && !ok;
          case Report(ticks) =>
            rt.Interfere(ticks);
          case Activate =>
            rt.Activate();
        }
        i := i + 1;
      }
    }

    /** How the destroy ends, from a gate q: who is blocked, whether the device goes, what was freed. */
    ghost predicate Ended(q: Gate, had: bool, device0: bool, trace0: seq<Act>, o: Answers, w: Reports)
      reads this, rt
    {
      && (rt.state.UnloadBlocked? <==> !(Goes(q, had, o, w) && !Strikes(q, Behind(w))))
      && device == (device0 && !Goes(q, had, o, w))
      && (!rt.state.UnloadBlocked? ==> GateOf(rt.View()) == After(q, Behind(w)))
      && (q.state.UnloadBlocked? || Strikes(q, w.entry) ==> trace == trace0)
      && (Goes(q, had, o, w) ==> !store && trace == trace0 + DestroyActs(had, device0))
    }

    /** The rest of ShRuntimeRunUnload once everything has stopped. */
    method FinishUnload(o: Answers, w: Reports) returns (ok: bool)
      requires Valid() && !rt.state.UnloadBlocked? && !rt.state.Active?
      modifies this, rt, rt.history
      ensures Valid() && ok == !rt.state.UnloadBlocked?
      ensures Ended(QuiescentFrom(old(GateOf(rt.View())), w), old(store), old(device), old(trace), o, w)
      ensures rt.reason == Pick(old(rt.reason), Pick(Pick(Reported(w.late), Reported(w.window)),
                                                     EndCause(o, old(store), w)))
      ensures ok && Test in w.window ==> Some(RundownUnderflow) in rt.causes
    {
      BlocksIff(GateOf(rt.View()), w.late);
      BlocksIff(After(GateOf(rt.View()), w.late), w.window);
      rt.Interfere(w.late);
      rt.EnterQuiescent(w.window);
      DestroyPart(o, w);
      ok := rt.state != UnloadBlocked;
    }

    /** The destroy and the reports around it, up to the last check. */
    method DestroyPart(o: Answers, w: Reports)
      requires Valid() && rt.state !in {Active, Teardown}
      modifies this, rt, rt.history
      ensures Valid() && OnlyReports(old(rt.View()), rt.View())
      ensures Ended(old(GateOf(rt.View())), old(store), old(device), old(trace), o, w)
      ensures rt.reason == Pick(old(rt.reason), EndCause(o, old(store), w))
    {
      ghost var q := GateOf(rt.View());
      BlocksIff(q, w.entry);
      BlocksIff(q, Behind(w));
      BehindInOrder(q, w);
      if !q.state.UnloadBlocked? && !Strikes(q, w.entry) { StrikesLater(q, w.entry, w.tables); }
      rt.Interfere(w.entry);
      ghost var entered := rt.View();
      Destroy(o, w.tables, w.drain);
      ghost var destroyed := rt.View();
      GoneTicks(w.gone);
      OnlyReportsTransitive(old(rt.View()), entered, destroyed);
      OnlyReportsTransitive(old(rt.View()), destroyed, rt.View());
    }

    /** The reports before the last check. */
    method GoneTicks(gone: seq<Tick>)
      requires Valid()
      modifies rt, rt.history
      ensures Valid() && OnlyReports(old(rt.View()), rt.View())
      ensures GateOf(rt.View()) == After(old(GateOf(rt.View())), gone)
      ensures old(rt.state).UnloadBlocked? ==> rt.state.UnloadBlocked?
      ensures rt.reason == Pick(old(rt.reason), Reported(gone))
    {
      BlocksIff(GateOf(rt.View()), gone);
      rt.Interfere(gone);
    }
  }

  lemma StopsFail(t: seq<Act>, steps: set<Step>, o: Answers)
    ensures Safe(t) ==> Safe(t + StopActs(steps, o))
    ensures HasFailure(t + StopActs(steps, o)) <==> HasFailure(t) || !StopOk(steps, o)
    ensures Frees(t + StopActs(steps, o), ControlDevice) == Frees(t, ControlDevice)
  {
    OnlyStops(t, StopActs(steps, o));
    StopActsFail(steps, o);
  }

  lemma StopActsFail(steps: set<Step>, o: Answers)
    ensures HasFailure(StopActs(steps, o)) <==> !StopOk(steps, o)
  {
    IfFails(true, Quiesced(WfpObjects, o.wfp.ok));
    IfFails(Bfe in steps, Quiesced(BfeCallbacks, BfeOk(true, o)));
    IfFails(Inject in steps, Quiesced(Injection, o.injection.ok));
    IfFails(Control in steps, Quiesced(ControlGate, o.control.ok));
    IfFails(EventQueue in steps, Quiesced(EventThread, o.events));
    Any5(If(true, Quiesced(WfpObjects, o.wfp.ok)), If(Bfe in steps, Quiesced(BfeCallbacks, BfeOk(true, o))),
         If(Inject in steps, Quiesced(Injection, o.injection.ok)),
         If(Control in steps, Quiesced(ControlGate, o.control.ok)),
         If(EventQueue in steps, Quiesced(EventThread, o.events)));
  }

  lemma IfFails(done: bool, a: Act)
    ensures HasFailure(If(done, a)) <==> done && IsFailure(a)
  {
    if done { assert If(done, a)[0] == a; }
  }

  lemma Any5(a: seq<Act>, b: seq<Act>, c: seq<Act>, d: seq<Act>, e: seq<Act>)
    ensures HasFailure(a + b + c + d + e) <==>
            HasFailure(a) || HasFailure(b) || HasFailure(c) || HasFailure(d) || HasFailure(e)
  {
    Any2(a, b);
    Any2(a + b, c);
    Any2(a + b + c, d);
    Any2(a + b + c + d, e);
  }

  lemma Any2(a: seq<Act>, b: seq<Act>)
    ensures HasFailure(a + b) <==> HasFailure(a) || HasFailure(b)
  {
    var t := a + b;
    if HasFailure(a) { var i :| 0 <= i < |a| && IsFailure(a[i]); assert IsFailure(t[i]); }
    if HasFailure(b) { var i :| 0 <= i < |b| && IsFailure(b[i]); assert IsFailure(t[|a| + i]); }
  }

  function If(done: bool, a: Act): seq<Act> { if done then [a] else [] }

  function FreeActs(steps: set<Step>): seq<Act> {
    (If(Inject in steps, Freed(Pools)) + If(Flow in steps, Freed(FlowTable))) + If(Rules in steps, Freed(Snapshots))
  }

  lemma Five(t: seq<Act>, a: seq<Act>, b: seq<Act>, c: seq<Act>, d: seq<Act>, e: seq<Act>)
    ensures t + a + b + c + d + e == t + (a + b + c + d + e)
  {
  }

  /** One report that reads Teardown before the check, and these ticks before the last check. */
  function Straddling(window: seq<Tick>, early: seq<Tick>, gone: seq<Tick>): Reports {
    Reports([[], [], [], [], [], [], [], []], early, [], window, [], [], [], gone)
  }

  lemma Straddles(window: seq<Tick>, early: seq<Tick>, gone: seq<Tick>)
    ensures var w := Straddling(window, early, gone);
      && Before(w) == early && Behind(w) == gone && Flatten(w.parts) + w.check == early && |w.parts| == 8
      && w.entry == [] && w.tables == [] && w.entry + w.tables == [] && w.late == []
  {
    var w := Straddling(window, early, gone);
    AllEmpty(w.parts);
  }

  lemma {:induction false} AllEmpty(rows: seq<seq<Tick>>)
    requires forall i :: 0 <= i < |rows| ==> rows[i] == []
    ensures Flatten(rows) == []
  {
    if |rows| > 0 { AllEmpty(rows[1..]); }
  }

  /** A report that runs whole inside the window of EnterQuiescent. */
  lemma InWindow()
    ensures AtQuiescent(Gate(Active, 0), Straddling([Test, Write], [], [])) == Gate(Quiescent, 0)
  {
    Straddles([Test, Write], [], []);
    assert [Test, Write][..1] == [Test] && [Test][..0] == [];
    assert After(Gate(Teardown, 0), [Test]) == Gate(Teardown, 1);
  }

  /** A report that reads Teardown before the check and has yet to write. */
  lemma EarlyTest(gone: seq<Tick>)
    ensures AtQuiescent(Gate(Active, 0), Straddling([], [Test], gone)) == Gate(Quiescent, 1)
    ensures !Strikes(Gate(Teardown, 0), [Test])
    ensures Strikes(Gate(Quiescent, 1), [Write])
  {
    Straddles([], [Test], gone);
    assert [Test][..0] == [];
    assert After(Gate(Teardown, 0), [Test]) == Gate(Teardown, 1);
    assert [Write][0].Write?;
  }

  /** A started and activated driver, and answers with which every part stops. */
  method Running() returns (d: Driver, o: Answers)
    ensures d.Valid() && fresh(d) && fresh(d.rt) && fresh(d.rt.history)
    ensures d.device && d.store && GateOf(d.rt.View()) == Gate(Active, 0) && d.rt.reason == None
    ensures QuiesceOk(d.bfeHandle, o) && o.snapshots
  {
    d := new Driver();
    var clean := Answer(true, []);
    o := Answers(clean, false, true, clean, true, true, clean, true, false, true);
    var out := d.Start(Starts(true, true, true, true, true, true, true, true), o);
    d.rt.Activate();
  }

  /** A report that falls in the window of EnterQuiescent is overwritten: the unload returns, the
      device is gone, and only the list of causes still shows the corrupt count. */
  method LoseReportInWindow() returns (d: Driver, ok: bool)
    ensures d.Valid() && ok && !d.device && !d.rt.state.UnloadBlocked?
    ensures Some(RundownUnderflow) in d.rt.causes
  {
    var o;
    d, o := Running();
    InWindow();
    Straddles([Test, Write], [], []);
    ok := d.RunUnload(o, Straddling([Test, Write], [], []));
  }

  /** A report that reads Teardown during the quiesce and writes once the device is gone: the unload
      parks for ever with nothing left to keep resident. */
  method BlockWithoutDevice() returns (d: Driver, ok: bool)
    ensures d.Valid() && !ok && !d.device && !d.store && d.rt.state.UnloadBlocked?
  {
    var o;
    d, o := Running();
    EarlyTest([Write]);
    Straddles([], [Test], [Write]);
    ok := d.RunUnload(o, Straddling([], [Test], [Write]));
  }

  /** The same report one step later: the unload has returned when the runtime becomes blocked. */
  method BlockAfterReturn() returns (d: Driver, ok: bool)
    ensures d.Valid() && ok && !d.device && d.rt.state.UnloadBlocked?
  {
    var o;
    d, o := Running();
    EarlyTest([]);
    Straddles([], [Test], []);
    ok := d.RunUnload(o, Straddling([], [Test], []));
    d.rt.ReportWrite();
  }

  /** The steps done when a start ends, whether it completed or not. */
  function Completed(s: Starts): set<Step> {
    if !s.rules then {Device}
    else if !s.telemetry then {Device, Rules}
    else if !s.control then {Device, Rules, EventQueue}
    else if !s.inject then {Device, Rules, EventQueue, Control}
    else if !s.flow then {Device, Rules, EventQueue, Control, Inject}
    else if !s.bfe then {Device, Rules, EventQueue, Control, Inject, Flow}
    else if s.bfeRunning && s.wfp then {Device, Rules, EventQueue, Control, Inject, Flow, Bfe, Wfp}
    else {Device, Rules, EventQueue, Control, Inject, Flow, Bfe}
  }

  predicate AllSteps(s: Starts) {
    s.rules && s.telemetry && s.control && s.inject && s.flow && s.bfe && (s.bfeRunning ==> s.wfp)
  }

  /** Quiesce asks these eight parts, in this order; each answer is the part's own. */
  lemma QuiesceAsksAll(subscribed: bool, o: Answers)
    ensures QuiesceActs(subscribed, o) ==
      [Quiesced(ControlGate, o.control.ok), Quiesced(WriteGate, !o.writable), Quiesced(EventThread, o.events),
       Quiesced(Injection, o.injection.ok),
       Quiesced(BfeCallbacks, (subscribed ==> o.unsubscribe) && o.bfeDrain), Quiesced(WfpObjects, o.wfp.ok),
       Quiesced(WorkItems, o.workItems), Quiesced(ThreadRecheck, !o.threadRunning)]
  {
  }

  predicate NoCauses(o: Answers) { o.control.causes == [] && o.injection.causes == [] && o.wfp.causes == [] }

  /** Without reports and causes of the parts' own, the reason an unload gives is that of the first
      part, in the order asked, that did not stop. */
  lemma QuiesceReason(subscribed: bool, o: Answers)
    requires NoCauses(o)
    ensures QuiesceCause(subscribed, o, [[], [], [], [], [], [], [], []]) ==
      if !o.control.ok then Some(HandleContextsOpen)
      else if o.writable then Some(RundownStuck)
      else if !o.events then Some(EventThreadDrain)
      else if !o.injection.ok then Some(InjectionDrain)
      else if subscribed && !o.unsubscribe then Some(BfeUnsubscribe)
      else if !o.bfeDrain then Some(BfeCallbackActive)
      else if !o.wfp.ok then Some(EngineClose)
      else if !o.workItems then Some(WorkItemDrain)
      else if o.threadRunning then Some(EventThreadDrain)
      else None
  {
    var r: seq<seq<Tick>> := [[], [], [], [], [], [], [], []];
    assert r[..4] == [[], [], [], []] && r[4..] == [[], [], [], []];
  }

  /** The same for a rollback, which asks in the reverse order of the start. */
  lemma RollbackReason(steps: set<Step>, o: Answers)
    requires NoCauses(o)
    ensures StopCause(steps, o) ==
      if !o.wfp.ok then Some(EngineClose)
      else if Bfe in steps && !o.unsubscribe then Some(BfeUnsubscribe)
      else if Bfe in steps && !o.bfeDrain then Some(BfeCallbackActive)
      else if Inject in steps && !o.injection.ok then Some(InjectionDrain)
      else if Control in steps && !o.control.ok then Some(HandleContextsOpen)
      else if EventQueue in steps && !o.events then Some(EventThreadDrain)
      else None
  {
  }

  lemma IfFrees(t: seq<Act>, done: bool, what: Thing, other: Thing)
    ensures Frees(t + If(done, Freed(what)), other) == Frees(t, other) + One(done && what == other)
  {
    if done { Later(t, Freed(what)); } else { assert t + If(done, Freed(what)) == t; }
  }

  /** A destroy frees pools and flow table, the snapshots if the store is there and the device if it
      is, each once. */
  lemma DestroyFreesAll(store: bool, device: bool, what: Thing)
    ensures Frees(DestroyActs(store, device), what) ==
      match what
      case Pools => 1
      case FlowTable => 1
      case Snapshots => One(store)
      case ControlDevice => One(device)
  {
    var t := [Freed(Pools), Freed(FlowTable)];
    Later([], Freed(Pools));
    Later([Freed(Pools)], Freed(FlowTable));
    assert [] + [Freed(Pools)] == [Freed(Pools)] && [Freed(Pools)] + [Freed(FlowTable)] == t;
    IfFrees(t, store, Snapshots, what);
    IfFrees(t + If(store, Freed(Snapshots)), device, ControlDevice, what);
    Regroup(t, If(store, Freed(Snapshots)), If(device, Freed(ControlDevice)));
  }

  /** A rollback frees exactly what the completed steps made. */
  lemma RollbackFreesStarted(steps: set<Step>, what: Thing)
    ensures Frees(FreeActs(steps), what) ==
      match what
      case Pools => One(Inject in steps)
      case FlowTable => One(Flow in steps)
      case Snapshots => One(Rules in steps)
      case ControlDevice => 0
  {
    var a, b := If(Inject in steps, Freed(Pools)), If(Flow in steps, Freed(FlowTable));
    IfFrees([], Inject in steps, Pools, what);
    assert [] + a == a;
    IfFrees(a, Flow in steps, FlowTable, what);
    IfFrees(a + b, Rules in steps, Snapshots, what);
  }

  lemma QuiesceActsFail(t: seq<Act>, subscribed: bool, o: Answers)
    ensures var u := t + QuiesceActs(subscribed, o);
            && (Safe(t) ==> Safe(u)) && Frees(u, ControlDevice) == Frees(t, ControlDevice)
            && (HasFailure(u) <==> HasFailure(t) || !QuiesceOk(subscribed, o))
  {
    var acts := QuiesceActs(subscribed, o);
    OnlyStops(t, acts);
    if !QuiesceOk(subscribed, o) {
      assert exists i :: 0 <= i < 8 && IsFailure(acts[i]) by {
        assert IsFailure(acts[0]) || IsFailure(acts[1]) || IsFailure(acts[2]) || IsFailure(acts[3])
            || IsFailure(acts[4]) || IsFailure(acts[5]) || IsFailure(acts[6]) || IsFailure(acts[7]);
      }
    }
  }

  predicate StopOk(steps: set<Step>, o: Answers) {
    && o.wfp.ok && (Bfe in steps ==> BfeOk(true, o)) && (Inject in steps ==> o.injection.ok)
    && (Control in steps ==> o.control.ok) && (EventQueue in steps ==> o.events)
  }

  function StopActs(steps: set<Step>, o: Answers): seq<Act> {
    If(true, Quiesced(WfpObjects, o.wfp.ok))
    + If(Bfe in steps, Quiesced(BfeCallbacks, BfeOk(true, o)))
    + If(Inject in steps, Quiesced(Injection, o.injection.ok))
    + If(Control in steps, Quiesced(ControlGate, o.control.ok))
    + If(EventQueue in steps, Quiesced(EventThread, o.events))
  }

  function DestroyActs(store: bool, device: bool): seq<Act> {
    [Freed(Pools), Freed(FlowTable)] + (If(store, Freed(Snapshots)) + If(device, Freed(ControlDevice)))
  }

  lemma FourReports(reports: seq<seq<Tick>>)
    requires |reports| == 4
    ensures Flatten(reports) == (reports[0] + reports[1]) + (reports[2] + reports[3])
  {
    var tail := reports[2..];
    assert reports[1..][1..] == tail && tail[1..][1..] == [];
    assert Flatten(tail) == tail[0] + (tail[1] + Flatten<Tick>([]));
  }
}
