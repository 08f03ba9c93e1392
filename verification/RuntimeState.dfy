/** The runtime's terminal state machine and its record of why an unload was blocked. */
module RuntimeState {
  import opened RuleTypes

  datatype RunState = Uninitialized | Active | Teardown | Quiescent | UnloadBlocked

  datatype Reason =
    | SensorCalloutBusy | DivertCalloutBusy | FlowContextDrain | InjectionDrain | WorkItemDrain
    | EventThreadDrain | HandleContextsOpen | BfeCallbackActive | BfeUnsubscribe | EngineClose
    | RundownStuck | RundownUnderflow | WorkerThreadDrain

  const HISTORY_CAP: nat := 16

  /** The state, the first cause (None is ShinkenBlockNone), every cause ever recorded, and how many
      underflow reports have read Teardown and are still to write. */
  datatype Log = Log(state: RunState, reason: Option<Reason>, causes: seq<Option<Reason>>, armed: nat)

  function Record(r: Log, why: Option<Reason>): Log {
    r.(causes := r.causes + [why], reason := if r.reason.None? then why else r.reason)
  }

  function Block(r: Log, why: Option<Reason>): Log {
    Record(r, why).(state := UnloadBlocked)
  }

  // ---- underflow reports from other threads ----

  /** A report records its cause and tests the state, and writes only if it read Teardown. */
  datatype Tick = Test | Write

  /** What the ticks of other threads act on: the state and the reports between test and write. */
  datatype Gate = Gate(state: RunState, armed: nat)

  function Pick(a: Option<Reason>, b: Option<Reason>): Option<Reason> { if a.Some? then a else b }

  /** The cause a report among the ticks records. */
  function Reported(ts: seq<Tick>): Option<Reason> { if Test in ts then Some(RundownUnderflow) else None }

  function GateOf(r: Log): Gate { Gate(r.state, r.armed) }

  function Ticked(g: Gate, t: Tick): Gate {
    match t
    case Test => if g.state.Teardown? then g.(armed := g.armed + 1) else g
    case Write => if g.armed > 0 then Gate(UnloadBlocked, g.armed - 1) else g
  }

  function After(g: Gate, ts: seq<Tick>): Gate {
    if |ts| == 0 then g else Ticked(After(g, ts[..|ts| - 1]), ts[|ts| - 1])
  }

  /** Some write among the ticks belongs to a report that read Teardown. */
  ghost predicate Strikes(g: Gate, ts: seq<Tick>) {
    exists i :: 0 <= i < |ts| && ts[i].Write? && (g.armed > 0 || (g.state.Teardown? && Test in ts[..i]))
  }

  lemma {:induction false} AfterAppend(g: Gate, a: seq<Tick>, b: seq<Tick>)
    ensures After(g, a + b) == After(After(g, a), b)
  {
    if |b| == 0 {
      assert a + b == a;
    } else {
      AfterAppend(g, a, b[..|b| - 1]);
      assert (a + b)[..|a + b| - 1] == a + b[..|b| - 1];
    }
  }

  lemma StrikesSnoc(g: Gate, ts: seq<Tick>, t: Tick)
    ensures Strikes(g, ts + [t]) <==>
      Strikes(g, ts) || (t.Write? && (g.armed > 0 || (g.state.Teardown? && Test in ts)))
  {
    var all := ts + [t];
    assert forall i :: 0 <= i < |ts| ==> all[i] == ts[i] && all[..i] == ts[..i];
    assert all[..|ts|] == ts && all[|ts|] == t;
    if Strikes(g, ts) {
      var i :| 0 <= i < |ts| && ts[i].Write? && (g.armed > 0 || (g.state.Teardown? && Test in ts[..i]));
      assert all[i].Write?;
    }
  }

  /** The ticks block the runtime if and only if one of their writes strikes; nothing else moves it. */
  lemma {:induction false} BlocksIff(g: Gate, ts: seq<Tick>)
    ensures After(g, ts).state == (if Strikes(g, ts) then UnloadBlocked else g.state)
    ensures !Strikes(g, ts) ==>
      (After(g, ts).armed > 0 <==> g.armed > 0 || (g.state.Teardown? && Test in ts))
  {
    if |ts| > 0 {
      var m := |ts| - 1;
      BlocksIff(g, ts[..m]);
      assert ts == ts[..m] + [ts[m]];
      StrikesSnoc(g, ts[..m], ts[m]);
    }
  }

  /** Outside an unload no report is between its test and its write, and none can strike. */
  lemma {:induction false} QuietOutsideTeardown(g: Gate, ts: seq<Tick>)
    requires g.armed == 0 && !g.state.Teardown?
    ensures After(g, ts) == g && !Strikes(g, ts)
  {
    if |ts| > 0 { QuietOutsideTeardown(g, ts[..|ts| - 1]); }
  }

  function Tock(r: Log, t: Tick): Log {
    match t
    case Test =>
      var q := Record(r, Some(RundownUnderflow));
      if q.state.Teardown? then q.(armed := q.armed + 1) else q
    case Write => if r.armed > 0 then Block(r, Some(RundownUnderflow)).(armed := r.armed - 1) else r
  }

  function TockAll(r: Log, ts: seq<Tick>): Log {
    if |ts| == 0 then r else Tock(TockAll(r, ts[..|ts| - 1]), ts[|ts| - 1])
  }

  /** A whole report that nothing interrupts blocks only an unload that is draining. */
  function Underflow(r: Log): Log {
    var q := Record(r, Some(RundownUnderflow));
    if q.state.Teardown? then Block(q, Some(RundownUnderflow)) else q
  }

  function FirstCause(causes: seq<Option<Reason>>): Option<Reason> {
    if |causes| == 0 then None
    else if causes[0].Some? then causes[0]
    else FirstCause(causes[1..])
  }

  lemma {:induction false} FirstCauseAppend(causes: seq<Option<Reason>>, why: Option<Reason>)
    ensures FirstCause(causes + [why]) == if FirstCause(causes).Some? then FirstCause(causes) else why
  {
    if |causes| > 0 {
      FirstCauseAppend(causes[1..], why);
      assert (causes + [why])[1..] == causes[1..] + [why];
    } else {
      assert (causes + [why])[1..] == [];
    }
  }

  /** From a to b only reports were added: causes grow, a first cause stays, and the only state
      change is to blocked. */
  ghost predicate OnlyReports(a: Log, b: Log) {
    && a.causes <= b.causes
    && (a.reason.Some? ==> b.reason == a.reason)
    && (b.state == a.state || (b.state.UnloadBlocked? && b.reason.Some?))
  }

  lemma OnlyReportsTransitive(a: Log, b: Log, c: Log)
    requires OnlyReports(a, b) && OnlyReports(b, c)
    ensures OnlyReports(a, c)
  {
  }

  class Runtime {
    var state: RunState
    var reason: Option<Reason>
    const history: array<Option<Reason>>
    var count: nat
    var armed: nat           // other threads between the test and the write of their report
    ghost var causes: seq<Option<Reason>>

    ghost function View(): Log
      reads this
    {
      Log(state, reason, causes, armed)
    }

    /** The first cause is kept whatever follows; the history holds the first sixteen in order; a
        report past its test has recorded, in an unload. */
    ghost predicate Valid()
      reads this, history
    {
      && history.Length == HISTORY_CAP
      && count == |causes|
      && reason == FirstCause(causes)
      && (armed > 0 ==> reason.Some? && !state.Uninitialized? && !state.Active?)
      && forall i :: 0 <= i < count && i < HISTORY_CAP ==> history[i] == causes[i]
    }

    /** The static state of a driver just loaded, after ShRuntimeInit. */
    constructor ()
      ensures Valid() && fresh(history) && View() == Log(Uninitialized, None, [], 0)
    {
      state, reason, count, causes, armed := Uninitialized, None, 0, [], 0;
      history := new Option<Reason>[HISTORY_CAP](_ => None);
    }

    /** ShRuntimeActivate; ShRuntimeInit forgets what was recorded before activation. */
    method Activate()
      requires Valid()
      modifies this, history
      ensures Valid()
      ensures View() == if old(state).Uninitialized? then Log(Active, None, [], 0) else old(View())
    {
      if state == Uninitialized {
        reason, count, causes := None, 0, [];
        state := Active;
      }
    }

    method BeginTeardown() returns (ok: bool)
      requires Valid()
      modifies this`state
      ensures Valid()
      ensures View() == old(View()).(state := if old(state).Active? then Teardown else old(state))
      ensures ok <==> old(state) !in {Quiescent, UnloadBlocked}
    {
      if state == Teardown {
        return true;
      }
      if state != Active {
        return state == Uninitialized;
      }
      state := Teardown;
      return true;
    }

    method RecordBlock(why: Option<Reason>)
      requires Valid()
      modifies this`reason, this`count, this`causes, history
      ensures Valid()
      ensures View() == Record(old(View()), why)
    {
      FirstCauseAppend(causes, why);
      var idx := count;
      count := count + 1;
      causes := causes + [why];
      if idx < HISTORY_CAP {
        history[idx] := why;
      }
      if reason == None {
        reason := why;
      }
    }

    method EnterUnloadBlocked(why: Option<Reason>)
      requires Valid()
      modifies this, history
      ensures Valid()
      ensures View() == Block(old(View()), why)
    {
      RecordBlock(why);
      if state != UnloadBlocked {
        state := UnloadBlocked;
      }
    }

    /** ShRuntimeReportUnderflow up to its test: the cause, and whether it read Teardown. */
    method ReportTest() returns (draining: bool)
      requires Valid()
      modifies this, history
      ensures Valid()
      ensures View() == Tock(old(View()), Test) && draining == old(state).Teardown?
    {
      RecordBlock(Some(RundownUnderflow));
      draining := state == Teardown;
      if draining {
        armed := armed + 1;
      }
    }

    /** Its write, by one of the reports that read Teardown. */
    method ReportWrite()
      requires Valid() && armed > 0
      modifies this, history
      ensures Valid()
      ensures View() == Tock(old(View()), Write)
    {
      EnterUnloadBlocked(Some(RundownUnderflow));
      armed := armed - 1;
    }

    /** ShRuntimeReportUnderflow, when nothing comes between its test and its write. */
    method ReportUnderflow()
      requires Valid()
      modifies this, history
      ensures Valid()
      ensures View() == Underflow(old(View()))
    {
      var draining := ReportTest();
      if draining {
        ReportWrite();
      }
    }

    /** The reports of other threads, as far as they run here: any mix of tests and writes. */
    method Interfere(ts: seq<Tick>)
      requires Valid()
      modifies this, history
      ensures Valid()
      ensures OnlyReports(old(View()), View()) && GateOf(View()) == After(old(GateOf(View())), ts)
      ensures reason == Pick(old(reason), Reported(ts))
      ensures Test in ts ==> Some(RundownUnderflow) in causes
      ensures ts == [] ==> View() == old(View())
    {
      RunTicks(ts);
    }

    method RunTick(t: Tick)
      requires Valid()
      modifies this, history
      ensures Valid()
      ensures View() == Tock(old(View()), t) && GateOf(View()) == Ticked(old(GateOf(View())), t)
      ensures OnlyReports(old(View()), View())
      ensures reason == if old(reason).None? && t.Test? then Some(RundownUnderflow) else old(reason)
      ensures t.Test? ==> Some(RundownUnderflow) in causes
    {
      if t.Test? {
        var draining := ReportTest();
      } else if armed > 0 {
        ReportWrite();
      }
    }

    method RunTicks(ts: seq<Tick>)
      requires Valid()
      modifies this, history
      ensures Valid()
      ensures View() == TockAll(old(View()), ts)
      ensures OnlyReports(old(View()), View()) && GateOf(View()) == After(old(GateOf(View())), ts)
      ensures reason == Pick(old(reason), Reported(ts))
      ensures Test in ts ==> Some(RundownUnderflow) in causes
    {
      var i := 0;
      assert ts[..0] == [];
      while i < |ts|
        invariant 0 <= i <= |ts|
        invariant Valid() && View() == TockAll(old(View()), ts[..i])
        invariant OnlyReports(old(View()), View()) && GateOf(View()) == After(old(GateOf(View())), ts[..i])
        invariant reason == Pick(old(reason), Reported(ts[..i]))
        invariant Test in ts[..i] ==> Some(RundownUnderflow) in causes
      {
        assert ts[..i + 1][..i] == ts[..i] && ts[..i + 1] == ts[..i] + [ts[i]];
        RunTick(ts[i]);
        i := i + 1;
      }
      assert ts[..i] == ts;
    }

    /** ShRuntimeEnterQuiescent: the test and the write are two accesses; `window` is what other
        threads' reports do between them. */
    method EnterQuiescent(window: seq<Tick>)
      requires Valid()
      modifies this, history
      ensures Valid()
      ensures var r := TockAll(old(View()), window);
              View() == if old(state).Teardown? then r.(state := Quiescent) else r
      ensures var g := After(old(GateOf(View())), window);
              GateOf(View()) == if old(state).Teardown? then g.(state := Quiescent) else g
      ensures old(View()).causes <= causes && (state.UnloadBlocked? ==> reason.Some? || old(state).UnloadBlocked?)
      ensures reason == Pick(old(reason), Reported(window))
      ensures Test in window ==> Some(RundownUnderflow) in causes
    {
      var draining := state == Teardown;
      RunTicks(window);
      if draining {
        state := Quiescent;
      }
    }

    predicate DestroyAllowed()
      reads this
    {
      state == Quiescent || state == Uninitialized
    }

    /** ShRuntimeBlockHistoryAt: the i-th cause, as long as it was among the first sixteen. */
    method HistoryAt(index: nat) returns (why: Option<Reason>)
      requires Valid()
      ensures why == if index < HISTORY_CAP && index < |causes| then causes[index] else None
    {
      if index >= HISTORY_CAP || index >= count {
        return None;
      }
      return history[index];
    }

    method RecordIfNone(why: Reason)
      requires Valid()
      modifies this`reason, this`count, this`causes, history
      ensures Valid()
      ensures View() == if old(reason).None? then Record(old(View()), Some(why)) else old(View())
      ensures reason.Some?
    {
      if reason == None {
        RecordBlock(Some(why));
      }
    }
  }
}
