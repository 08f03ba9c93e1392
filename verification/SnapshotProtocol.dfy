/** Lifetime of rule snapshots under concurrency (rule_store): readers, one writer at a time
    under storeLock, publish, rollback, retire scans, shutdown and reinitialisation.

    Each step is one section of g_PublishLock or one action outside it. Dereferencing or freeing
    a snapshot that is not allocated, or freeing one that a reader holds, raises `fault`. */
module SnapshotProtocol {
  import opened RuleTypes
  import opened Sequences
  import opened Rundown
  import StoreView

  type Id = nat       // an address: freed addresses may be allocated again
  type Reader = nat   // one classify call

  datatype Snap = Snap(content: Snapshot, count: Long)

  datatype Op =
    | Publish(rules: seq<Rule>, policy: u32)
    | Rollback(rb: Id)   // the slot pointer the writer read under storeLock

  /** The storeLock holder, its private pointers and private lists. */
  datatype Writer =
    | Unlocked
    | Entered(op: Op)                                    // gate tested, nothing allocated
    | Draining(op: Op, made: Id, drained: set<Id>)       // new snapshot built; freeing a scan's finds
    | Diffing(prev: Id, made: Id)                        // after W: comparing the two rule lists
    | ShutEntered
    | Closing(stuck: set<Id>)                            // after the shutdown W
    | Popped(id: Id, stuck: set<Id>)                     // polling one snapshot off the retire list
    | Condemned(id: Id, stuck: set<Id>)                  // a poll read it drained; still to be freed

  datatype State = StoreState(
    heap: map<Id, Snap>,
    current: Option<Id>, slot: Option<Id>, retire: set<Id>,
    writer: Writer,
    inited: bool, closed: bool, active: bool, blocked: bool,
    holds: map<Reader, Id>,
    fault: bool)

  const INITIAL: State := StoreState(map[], None, None, {}, Unlocked, false, false, false, false, map[], false)

  datatype Event =
    | Lock(rules: seq<Rule>, policy: u32)
    | LockRollback
    | WriterRead
    | Alloc(id: Id)
    | AllocFail
    | Scan(found: set<Id>)
    | FreeDrained(d: Id)
    | Swap
    | Diff
    | Unlock
    | ShutLock | ShutSwap | ShutPop(p: Id) | ShutDrained | ShutFree | ShutTimeout | ShutFinish
    | Init(newId: Id)
    | Acquire(t: Reader)
    | Read(t: Reader)
    | Release(t: Reader)
    | SetActive(on: bool)
    | Block

  // ---- primitive actions ----

  predicate Writable(s: State) { s.inited && !s.closed && s.active }

  function HoldersOf(holds: map<Reader, Id>, id: Id): set<Reader> {
    set t | t in holds && holds[t] == id
  }

  function Touch(s: State, id: Id): State { if id in s.heap then s else s.(fault := true) }

  function Free(s: State, id: Id): State {
    if id in s.heap && HoldersOf(s.holds, id) == {} then s.(heap := s.heap - {id}) else s.(fault := true)
  }

  function SetCount(s: State, id: Id, c: Long): State
    requires id in s.heap
  {
    s.(heap := s.heap[id := s.heap[id].(count := c)])
  }

  /** BeginStop and link into the retire list; linking a node that is already there is a fault. */
  function Retire(s: State, id: Id): State {
    if id in s.heap && id !in s.retire then
      SetCount(s, id, SetStop(s.heap[id].count)).(retire := s.retire + {id})
    else s.(fault := true)
  }

  function RetireOpt(s: State, o: Option<Id>): State {
    match o
    case None => s
    case Some(id) => Retire(s, id)
  }

  predicate IsDrained(s: State, id: Id) { id in s.heap && ActiveCount(s.heap[id].count) == -1 }

  // ---- the steps ----

  function Next(s: State, e: Event): State {
    match e
    case Lock(rules, policy) =>
      if s.writer != Unlocked || !Writable(s) then s
      else if s.current.None? then s.(fault := true)
      else Touch(s, s.current.value).(writer := Entered(Publish(rules, policy)))
    case LockRollback =>
      if s.writer != Unlocked || !Writable(s) || s.slot.None? then s
      else s.(writer := Entered(Rollback(s.slot.value)))
    case WriterRead => WriterReadStep(s)
    case Alloc(id) => AllocStep(s, id)
    case AllocFail => if s.writer.Entered? then s.(writer := Unlocked) else s
    case Scan(found) => ScanStep(s, found)
    case FreeDrained(id) => FreeDrainedStep(s, id)
    case Swap => SwapStep(s)
    case Diff => if s.writer.Diffing? then Touch(Touch(s, s.writer.prev), s.writer.made) else s
    case Unlock => if s.writer.Diffing? then s.(writer := Unlocked) else s
    case ShutLock =>
      if s.writer == Unlocked && s.inited && !s.blocked then s.(writer := ShutEntered) else s
    case ShutSwap => ShutSwapStep(s)
    case ShutPop(id) => ShutPopStep(s, id)
    case ShutDrained => ShutDrainedStep(s)
    case ShutFree => ShutFreeStep(s)
    case ShutTimeout => ShutTimeoutStep(s)
    case ShutFinish => ShutFinishStep(s)
    case Init(id) => InitStep(s, id)
    case Acquire(t) => AcquireStep(s, t)
    case Read(t) => if t in s.holds then Touch(s, s.holds[t]) else s
    case Release(t) => ReleaseStep(s, t)
    case SetActive(on) => s.(active := on)
    case Block => s.(blocked := true)
  }

  /** Before W the writer reads the current snapshot, or the slot it copies. */
  function WriterReadStep(s: State): State {
    if !s.writer.Entered? then s
    else match s.writer.op
      case Publish(_, _) => if s.current.Some? then Touch(s, s.current.value) else s.(fault := true)
      case Rollback(rb) => Touch(s, rb)
  }

  function AllocStep(s: State, id: Id): State {
    if !s.writer.Entered? || id in s.heap then s
    else match s.writer.op
      case Publish(rules, policy) =>
        s.(heap := s.heap[id := Snap(Snapshot(rules, 0, policy), 0)],
           writer := Draining(s.writer.op, id, {}))
      case Rollback(rb) =>
        if rb !in s.heap then s.(fault := true)
        else s.(heap := s.heap[id := Snap(s.heap[rb].content.(version := 0), 0)],
                writer := Draining(s.writer.op, id, {}))
  }

  /** One retire-list scan, at its end. The counters are read one after another while readers
      release outside the lock, so what moves to the private list is any part of what is drained
      by then. */
  function ScanStep(s: State, found: set<Id>): State {
    if
      && s.writer.Draining? && s.writer.drained == {}
      && forall id :: id in found ==> id in s.retire && IsDrained(s, id)
    then
      s.(writer := s.writer.(drained := found), retire := s.retire - found)
    else s
  }

  function FreeDrainedStep(s: State, id: Id): State {
    if s.writer.Draining? && id in s.writer.drained then
      Free(s, id).(writer := s.writer.(drained := s.writer.drained - {id}))
    else s
  }

  /** W: the publish or rollback linearization point, or the closed-gate exit. */
  function SwapStep(s: State): State {
    if !s.writer.Draining? || s.writer.drained != {} then s
    else if !Writable(s) then Free(s, s.writer.made).(writer := Unlocked)
    else if s.current.None? || s.current.value !in s.heap || s.writer.made !in s.heap then s.(fault := true)
    else match s.writer.op
      case Publish(_, _) => SwapPublish(s, s.current.value, s.writer.made)
      case Rollback(rb) => SwapRollback(s, s.current.value, s.writer.made, rb)
  }

  /** The new snapshot, stamped with the next version, becomes current. */
  function Install(s: State, prev: Id, made: Id): State
    requires prev in s.heap && made in s.heap
  {
    var v := s.heap[prev].content.version + 1;
    s.(heap := s.heap[made := s.heap[made].(content := s.heap[made].content.(version := v))],
       current := Some(made), writer := Diffing(prev, made))
  }

  function SwapPublish(s: State, prev: Id, made: Id): State
    requires prev in s.heap && made in s.heap
  {
    RetireOpt(Install(s, prev, made).(slot := Some(prev)), s.slot)
  }

  function SwapRollback(s: State, prev: Id, made: Id, rb: Id): State
    requires prev in s.heap && made in s.heap
  {
    Retire(Retire(Install(s, prev, made).(slot := None), prev), rb)
  }

  /** The shutdown W: close the gate, detach and stop current and slot. */
  function ShutSwapStep(s: State): State {
    if s.writer != ShutEntered then s
    else
      RetireOpt(RetireOpt(s.(closed := true, current := None, slot := None, writer := Closing({})),
                          s.current), s.slot)
  }

  function ShutPopStep(s: State, id: Id): State {
    if s.writer.Closing? && id in s.retire then
      s.(writer := Popped(id, s.writer.stuck), retire := s.retire - {id})
    else s
  }

  /** A poll that reads STOP_BIT condemns the snapshot; any other poll changes nothing. */
  function ShutDrainedStep(s: State): State {
    if !s.writer.Popped? then s
    else if s.writer.id !in s.heap then s.(fault := true)
    else if s.heap[s.writer.id].count != STOP_BIT then s
    else s.(writer := Condemned(s.writer.id, s.writer.stuck))
  }

  function ShutFreeStep(s: State): State {
    if s.writer.Condemned? then Free(s, s.writer.id).(writer := Closing(s.writer.stuck)) else s
  }

  /** The last poll still saw holders: keep the snapshot and enter UNLOAD_BLOCKED. */
  function ShutTimeoutStep(s: State): State {
    if !s.writer.Popped? then s
    else if s.writer.id !in s.heap then s.(fault := true)
    else if s.heap[s.writer.id].count == STOP_BIT then s
    else s.(writer := Closing(s.writer.stuck + {s.writer.id}), blocked := true)
  }

  /** Requeue what is stuck and report: TRUE resets the store, FALSE leaves it initialised. */
  function ShutFinishStep(s: State): State {
    if s.writer.Closing? && s.retire == {} then
      s.(retire := s.writer.stuck, inited := s.writer.stuck != {}, writer := Unlocked)
    else s
  }

  function InitStep(s: State, id: Id): State {
    if s.writer == Unlocked && !s.inited && !s.blocked && id !in s.heap then
      s.(heap := s.heap[id := Snap(Snapshot([], 0, POLICY_PERMIT), 0)],
         current := Some(id), slot := None, retire := {}, closed := false, inited := true)
    else s
  }

  /** R: read g_Current, test closed, rundown Acquire. */
  function AcquireStep(s: State, t: Reader): State {
    if t in s.holds || s.current.None? || s.closed then s
    else
      var id := s.current.value;
      if id !in s.heap then s.(fault := true)
      else
        var c := s.heap[id].count;
        if c < 0 || c >= CEILING then s
        else SetCount(s, id, Wrap(c + 1)).(holds := s.holds[t := id])
  }

  function ReleaseStep(s: State, t: Reader): State {
    if t !in s.holds then s
    else
      var id := s.holds[t];
      if id !in s.heap then s.(fault := true)
      else SetCount(s, id, Wrap(s.heap[id].count - 1)).(holds := s.holds - {t})
  }

  function Exec(s: State, es: seq<Event>): State {
    if |es| == 0 then s else Next(Exec(s, es[..|es| - 1]), es[|es| - 1])
  }

  // ---- the invariant ----

  /** In how many of the writer's private stopped places a snapshot is. */
  function PrivateCount(w: Writer, id: Id): nat {
    match w
    case Draining(_, _, drained) => One(id in drained)
    case Closing(stuck) => One(id in stuck)
    case Popped(p, stuck) => One(id in stuck) + One(id == p)
    case Condemned(p, stuck) => One(id in stuck) + One(id == p)
    case _ => 0
  }

  predicate IsMade(w: Writer, id: Id) { w.Draining? && w.made == id }

  predicate IsStopped(s: State, id: Id) { id in s.retire || PrivateCount(s.writer, id) > 0 }

  /** The number of places that refer to a snapshot: current, rollback slot, retire list, and the
      private pointers and lists of the storeLock holder. */
  function Places(s: State, id: Id): nat {
    One(s.current == Some(id)) + One(s.slot == Some(id)) + One(id in s.retire)
    + One(IsMade(s.writer, id)) + PrivateCount(s.writer, id)
  }

  /** An allocated snapshot is in exactly one place, its counter encodes whether it was stopped
      and how many readers hold it, and what the writer is about to free has no reader. */
  ghost predicate Tracked(s: State, id: Id) {
    && Places(s, id) == One(id in s.heap)
    && |HoldersOf(s.holds, id)| <= CEILING
    && (id in s.heap ==> s.heap[id].count == Encode(IsStopped(s, id), |HoldersOf(s.holds, id)|))
    && (id !in s.heap || IsMade(s.writer, id) || (s.writer.Draining? && id in s.writer.drained)
        || (s.writer.Condemned? && s.writer.id == id)
        ==> HoldersOf(s.holds, id) == {})
  }

  ghost predicate WriterOk(s: State) {
    && (s.current.Some? <==> s.inited && !s.closed)
    && (s.current.None? ==> s.slot.None?)
    && (!s.inited ==> s.retire == {} && s.writer == Unlocked)
    && match s.writer
       case Unlocked => true
       case Entered(op) => s.current.Some? && (op.Rollback? ==> s.slot == Some(op.rb))
       case Draining(op, _, _) => s.current.Some? && (op.Rollback? ==> s.slot == Some(op.rb))
       case Diffing(prev, made) => prev in s.heap && s.current == Some(made)
       case ShutEntered => s.inited
       case Closing(stuck) => s.closed && (stuck != {} ==> s.blocked)
       case Popped(_, stuck) => s.closed && (stuck != {} ==> s.blocked)
       case Condemned(_, stuck) => s.closed && (stuck != {} ==> s.blocked)
  }

  ghost predicate Inv(s: State) {
    (forall id :: Tracked(s, id)) && WriterOk(s) && !s.fault
  }

  // ---- every step keeps it ----

  lemma HoldersAdd(holds: map<Reader, Id>, t: Reader, id: Id, x: Id)
    requires t !in holds
    ensures HoldersOf(holds[t := id], id) == HoldersOf(holds, id) + {t}
    ensures |HoldersOf(holds[t := id], id)| == |HoldersOf(holds, id)| + 1
    ensures x != id ==> HoldersOf(holds[t := id], x) == HoldersOf(holds, x)
  {
    assert t !in HoldersOf(holds, id);
  }

  lemma HoldersRemove(holds: map<Reader, Id>, t: Reader, x: Id)
    requires t in holds
    ensures |HoldersOf(holds - {t}, holds[t])| == |HoldersOf(holds, holds[t])| - 1
    ensures x != holds[t] ==> HoldersOf(holds - {t}, x) == HoldersOf(holds, x)
  {
    assert HoldersOf(holds - {t}, holds[t]) == HoldersOf(holds, holds[t]) - {t};
    assert t in HoldersOf(holds, holds[t]);
  }

  /** A held snapshot is allocated. */
  lemma HeldIsAllocated(s: State, t: Reader)
    requires Inv(s) && t in s.holds
    ensures s.holds[t] in s.heap
  {
    assert Tracked(s, s.holds[t]);
    assert t in HoldersOf(s.holds, s.holds[t]);
  }

  lemma AcquireTracks(s: State, t: Reader, x: Id)
    requires Inv(s)
    ensures Tracked(AcquireStep(s, t), x) && !AcquireStep(s, t).fault
  {
    assert Tracked(s, x);
    if t !in s.holds && s.current.Some? {
      var id := s.current.value;
      assert Tracked(s, id);
      HoldersAdd(s.holds, t, id, x);
    }
  }

  lemma AcquireKeepsInv(s: State, t: Reader)
    requires Inv(s)
    ensures Inv(AcquireStep(s, t))
  {
    forall x ensures Tracked(AcquireStep(s, t), x) {
      AcquireTracks(s, t, x);
    }
    AcquireTracks(s, t, 0);
  }

  lemma ReleaseTracks(s: State, t: Reader, x: Id)
    requires Inv(s)
    ensures Tracked(ReleaseStep(s, t), x) && !ReleaseStep(s, t).fault
  {
    assert Tracked(s, x);
    if t in s.holds {
      HeldIsAllocated(s, t);
      assert Tracked(s, s.holds[t]);
      HoldersRemove(s.holds, t, x);
    }
  }

  lemma ReleaseKeepsInv(s: State, t: Reader)
    requires Inv(s)
    ensures Inv(ReleaseStep(s, t))
  {
    forall x ensures Tracked(ReleaseStep(s, t), x) {
      ReleaseTracks(s, t, x);
    }
    ReleaseTracks(s, t, 0);
  }

  /** A counter that reads as drained has no holders. */
  lemma DrainedHasNoHolders(s: State, id: Id)
    requires Inv(s) && id in s.heap && s.heap[id].count == STOP_BIT
    ensures HoldersOf(s.holds, id) == {}
  {
    assert Tracked(s, id);
    EncodeInjective(IsStopped(s, id), |HoldersOf(s.holds, id)|, true, 0);
  }

  lemma ScanKeepsInv(s: State, found: set<Id>)
    requires Inv(s)
    ensures Inv(ScanStep(s, found))
  {
    forall x ensures Tracked(ScanStep(s, found), x) {
      assert Tracked(s, x);
      if IsDrained(s, x) {
        DrainedHasNoHolders(s, x);
      }
    }
  }

  lemma FreeDrainedKeepsInv(s: State, id: Id)
    requires Inv(s)
    ensures Inv(FreeDrainedStep(s, id))
  {
    assert Tracked(s, id);
    forall x ensures Tracked(FreeDrainedStep(s, id), x) {
      assert Tracked(s, x);
    }
  }

  lemma AllocKeepsInv(s: State, id: Id)
    requires Inv(s)
    ensures Inv(AllocStep(s, id))
  {
    if s.writer.Entered? && s.writer.op.Rollback? {
      assert Tracked(s, s.writer.op.rb);
    }
    assert Tracked(s, id);
    forall x ensures Tracked(AllocStep(s, id), x) {
      assert Tracked(s, x);
    }
  }

  lemma SwapPublishKeepsInv(s: State)
    requires Inv(s) && s.writer.Draining? && s.writer.drained == {} && s.writer.op.Publish?
    ensures s.current.value in s.heap && s.writer.made in s.heap
    ensures Inv(SwapPublish(s, s.current.value, s.writer.made))
  {
    assert Tracked(s, s.writer.made);
    assert Tracked(s, s.current.value);
    if s.slot.Some? {
      assert Tracked(s, s.slot.value);
    }
    var s' := SwapPublish(s, s.current.value, s.writer.made);
    forall x ensures Tracked(s', x) {
      assert Tracked(s, x);
    }
  }

  lemma SwapRollbackKeepsInv(s: State)
    requires Inv(s) && s.writer.Draining? && s.writer.drained == {} && s.writer.op.Rollback?
    ensures s.current.value in s.heap && s.writer.made in s.heap
    ensures Inv(SwapRollback(s, s.current.value, s.writer.made, s.writer.op.rb))
  {
    assert Tracked(s, s.writer.made);
    assert Tracked(s, s.current.value);
    assert Tracked(s, s.slot.value);
    var s' := SwapRollback(s, s.current.value, s.writer.made, s.writer.op.rb);
    forall x ensures Tracked(s', x) {
      assert Tracked(s, x);
    }
  }

  lemma SwapKeepsInv(s: State)
    requires Inv(s)
    ensures Inv(SwapStep(s))
  {
    if s.writer.Draining? && s.writer.drained == {} {
      if Writable(s) {
        if s.writer.op.Publish? {
          SwapPublishKeepsInv(s);
        } else {
          SwapRollbackKeepsInv(s);
        }
      } else {
        assert Tracked(s, s.writer.made);
        forall x ensures Tracked(SwapStep(s), x) {
          assert Tracked(s, x);
        }
      }
    }
  }

  lemma ShutSwapKeepsInv(s: State)
    requires Inv(s)
    ensures Inv(ShutSwapStep(s))
  {
    if s.writer == ShutEntered {
      if s.current.Some? {
        assert Tracked(s, s.current.value);
      }
      if s.slot.Some? {
        assert Tracked(s, s.slot.value);
      }
      forall x ensures Tracked(ShutSwapStep(s), x) {
        ShutSwapTracks(s, x);
      }
    }
  }

  /** What Retire does to one snapshot. */
  lemma RetireIs(s: State, id: Id, x: Id)
    requires id in s.heap && id !in s.retire
    ensures var t := Retire(s, id);
      && t.retire == s.retire + {id} && t.holds == s.holds
      && (x in t.heap <==> x in s.heap)
      && (x in s.heap ==> t.heap[x].count == if x == id then SetStop(s.heap[x].count) else s.heap[x].count)
      && t.current == s.current && t.slot == s.slot && t.writer == s.writer
  {
  }

  lemma ShutSwapTracks(s: State, x: Id)
    requires Inv(s) && s.writer == ShutEntered
    ensures Tracked(ShutSwapStep(s), x)
  {
    assert Tracked(s, x);
    var s1 := s.(closed := true, current := None, slot := None, writer := Closing({}));
    var s2 := RetireOpt(s1, s.current);
    if s.current.Some? {
      assert Tracked(s, s.current.value);
      RetireIs(s1, s.current.value, x);
    }
    if s.slot.Some? {
      assert Tracked(s, s.slot.value);
      assert s.current.Some?;
      RetireIs(s1, s.current.value, s.slot.value);
      RetireIs(s2, s.slot.value, x);
    }
  }

  lemma ShutPopKeepsInv(s: State, id: Id)
    requires Inv(s)
    ensures Inv(ShutPopStep(s, id))
  {
    forall x ensures Tracked(ShutPopStep(s, id), x) {
      assert Tracked(s, x);
    }
  }

  lemma ShutDrainedKeepsInv(s: State)
    requires Inv(s)
    ensures Inv(ShutDrainedStep(s))
  {
    if s.writer.Popped? {
      var id := s.writer.id;
      assert Tracked(s, id);
      if s.heap[id].count == STOP_BIT {
        DrainedHasNoHolders(s, id);
      }
      forall x ensures Tracked(ShutDrainedStep(s), x) {
        assert Tracked(s, x);
      }
    }
  }

  lemma ShutFreeKeepsInv(s: State)
    requires Inv(s)
    ensures Inv(ShutFreeStep(s))
  {
    if s.writer.Condemned? {
      assert Tracked(s, s.writer.id);
      forall x ensures Tracked(ShutFreeStep(s), x) {
        assert Tracked(s, x);
      }
    }
  }

  lemma ShutTimeoutKeepsInv(s: State)
    requires Inv(s)
    ensures Inv(ShutTimeoutStep(s))
  {
    if s.writer.Popped? {
      assert Tracked(s, s.writer.id);
      forall x ensures Tracked(ShutTimeoutStep(s), x) {
        assert Tracked(s, x);
      }
    }
  }

  lemma ShutFinishKeepsInv(s: State)
    requires Inv(s)
    ensures Inv(ShutFinishStep(s))
  {
    forall x ensures Tracked(ShutFinishStep(s), x) {
      assert Tracked(s, x);
    }
  }

  lemma InitKeepsInv(s: State, id: Id)
    requires Inv(s)
    ensures Inv(InitStep(s, id))
  {
    assert Tracked(s, id);
    forall x ensures Tracked(InitStep(s, id), x) {
      assert Tracked(s, x);
    }
  }

  /** The steps that only move the writer on, or read. */
  predicate Quiet(e: Event) {
    || e.Lock? || e.LockRollback? || e.WriterRead? || e.AllocFail? || e.Diff? || e.Unlock? || e.ShutLock?
    || e.Read? || e.SetActive? || e.Block?
  }

  lemma QuietFrame(s: State, e: Event)
    requires Inv(s) && Quiet(e)
    ensures Next(s, e) == s.(writer := Next(s, e).writer, active := Next(s, e).active, blocked := Next(s, e).blocked)
    ensures WriterOk(Next(s, e)) && (s.blocked ==> Next(s, e).blocked)
    ensures Next(s, e).writer == s.writer
         || (!s.writer.Draining? && !Next(s, e).writer.Draining?
             && forall x :: PrivateCount(s.writer, x) == PrivateCount(Next(s, e).writer, x) == 0)
  {
    if s.current.Some? {
      assert Tracked(s, s.current.value);
    }
    if s.slot.Some? {
      assert Tracked(s, s.slot.value);
    }
    if e.Read? && e.t in s.holds {
      HeldIsAllocated(s, e.t);
    }
  }

  lemma QuietKeepsInv(s: State, e: Event)
    requires Inv(s) && Quiet(e)
    ensures Inv(Next(s, e))
  {
    QuietFrame(s, e);
    var s' := Next(s, e);
    forall x ensures Tracked(s', x) {
      assert Tracked(s, x);
      assert PrivateCount(s.writer, x) == PrivateCount(s'.writer, x);
    }
  }

  lemma NextKeepsInv(s: State, e: Event)
    requires Inv(s)
    ensures Inv(Next(s, e))
  {
    match e
    case Alloc(id) => AllocKeepsInv(s, id);
    case Scan(found) => ScanKeepsInv(s, found);
    case FreeDrained(id) => FreeDrainedKeepsInv(s, id);
    case Swap => SwapKeepsInv(s);
    case ShutSwap => ShutSwapKeepsInv(s);
    case ShutPop(id) => ShutPopKeepsInv(s, id);
    case ShutDrained => ShutDrainedKeepsInv(s);
    case ShutFree => ShutFreeKeepsInv(s);
    case ShutTimeout => ShutTimeoutKeepsInv(s);
    case ShutFinish => ShutFinishKeepsInv(s);
    case Init(id) => InitKeepsInv(s, id);
    case Acquire(t) => AcquireKeepsInv(s, t);
    case Release(t) => ReleaseKeepsInv(s, t);
    case _ => QuietKeepsInv(s, e);
  }

  // ---- theorems over every schedule ----

  /** In every interleaving: nothing freed is dereferenced, nothing is freed twice or under a
      reader, and every allocated snapshot is in exactly one place. */
  lemma {:induction false} NoUseAfterFree(es: seq<Event>)
    ensures Inv(Exec(INITIAL, es))
    ensures !Exec(INITIAL, es).fault
    ensures forall t :: t in Exec(INITIAL, es).holds ==> Exec(INITIAL, es).holds[t] in Exec(INITIAL, es).heap
    ensures forall id :: id in Exec(INITIAL, es).heap ==> Places(Exec(INITIAL, es), id) == 1
  {
    var s := Exec(INITIAL, es);
    if |es| == 0 {
      forall id ensures Tracked(s, id) {
        assert HoldersOf(s.holds, id) == {};
      }
    } else {
      NoUseAfterFree(es[..|es| - 1]);
      NextKeepsInv(Exec(INITIAL, es[..|es| - 1]), es[|es| - 1]);
    }
    forall t | t in s.holds ensures s.holds[t] in s.heap {
      HeldIsAllocated(s, t);
    }
    forall id | id in s.heap ensures Places(s, id) == 1 {
      assert Tracked(s, id);
    }
  }

  /** Inside R the Acquire succeeds while the store is open, short of the counter's ceiling. */
  lemma AcquireSucceedsIff(s: State, t: Reader)
    requires Inv(s) && t !in s.holds
    ensures t in AcquireStep(s, t).holds
       <==> s.inited && !s.closed && |HoldersOf(s.holds, s.current.value)| < CEILING
  {
    if s.current.Some? {
      assert Tracked(s, s.current.value);
    }
  }

  function FirstReaders(n: nat): (holds: map<Reader, Id>)
    ensures forall t :: t in holds ==> t < n
  {
    if n == 0 then map[] else FirstReaders(n - 1)[n - 1 := 0]
  }

  /** The store just opened, held by n readers. */
  function Crowd(n: nat): State
    requires n <= CEILING
  {
    StoreState(map[0 := Snap(Snapshot([], 0, POLICY_PERMIT), n)], Some(0), None, {}, Unlocked, true,
               false, false, false, FirstReaders(n), false)
  }

  lemma CrowdOpens()
    ensures Next(INITIAL, Init(0)) == Crowd(0)
  {
  }

  lemma CrowdGrows(n: nat)
    requires n < CEILING
    ensures Next(Crowd(n), Acquire(n)) == Crowd(n + 1)
  {
    assert Crowd(n).heap[0 := Snap(Snapshot([], 0, POLICY_PERMIT), n + 1)] == Crowd(n + 1).heap;
  }

  lemma CrowdRefuses()
    ensures Next(Crowd(CEILING), Acquire(CEILING)) == Crowd(CEILING)
  {
  }

  lemma ExecSnoc(s: State, es: seq<Event>, e: Event)
    ensures Exec(s, es + [e]) == Next(Exec(s, es), e)
  {
    assert (es + [e])[..|es|] == es;
  }

  /** The refusal is real: a schedule of acquires brings an open store to the ceiling, and there one
      more reader gets nothing. */
  lemma {:induction false} CrowdReachable(n: nat) returns (es: seq<Event>)
    requires n <= CEILING
    ensures Exec(INITIAL, es) == Crowd(n)
    ensures n == CEILING ==>
      var s := Exec(INITIAL, es + [Acquire(n)]);
      s.inited && !s.closed && s.current.Some? && n !in s.holds
  {
    if n == 0 {
      es := [Init(0)];
      ExecSnoc(INITIAL, [], Init(0));
      CrowdOpens();
    } else {
      var before := CrowdReachable(n - 1);
      es := before + [Acquire(n - 1)];
      ExecSnoc(INITIAL, before, Acquire(n - 1));
      CrowdGrows(n - 1);
    }
    if n == CEILING {
      ExecSnoc(INITIAL, es, Acquire(n));
      CrowdRefuses();
    }
  }

  // ---- reclamation ends ----

  /** A scan can take a retired snapshot exactly when no reader holds it. */
  lemma ScanTakesIff(s: State, id: Id)
    requires Inv(s) && id in s.retire
    ensures IsDrained(s, id) <==> HoldersOf(s.holds, id) == {}
  {
    assert Tracked(s, id);
    if IsDrained(s, id) { DrainedHasNoHolders(s, id); }
  }

  lemma OneFree(s: State, id: Id)
    requires Inv(s) && s.writer.Draining? && id in s.writer.drained
    ensures Next(s, FreeDrained(id)) ==
      s.(heap := s.heap - {id}, writer := s.writer.(drained := s.writer.drained - {id}))
  {
    assert Tracked(s, id);
  }

  /** The frees after a scan, one by one. */
  lemma {:induction false} FreesFollow(s: State, es: seq<Event>, ids: set<Id>) returns (fs: seq<Event>)
    requires var u := Exec(s, es);
      Inv(u) && u.writer.Draining? && ids <= u.writer.drained
    ensures var u := Exec(s, es);
      && |fs| == |es| + |ids| && Inv(Exec(s, fs))
      && Exec(s, fs) == u.(heap := u.heap - ids, writer := u.writer.(drained := u.writer.drained - ids))
    decreases ids
  {
    var u := Exec(s, es);
    if ids == {} {
      fs := es;
      assert u.heap - ids == u.heap && u.writer.drained - ids == u.writer.drained;
    } else {
      var id :| id in ids;
      var before := FreesFollow(s, es, ids - {id});
      var v := Exec(s, before);
      OneFree(v, id);
      FreeDrainedKeepsInv(v, id);
      fs := before + [FreeDrained(id)];
      ExecSnoc(s, before, FreeDrained(id));
      assert v.heap - {id} == u.heap - ids && v.writer.drained - {id} == u.writer.drained - ids;
    }
  }

  /** Once no reader holds a retired snapshot, one scan and its frees empty the retire list, free
      exactly those snapshots and change nothing else. */
  lemma ScanEmptiesRetire(s: State) returns (es: seq<Event>)
    requires Inv(s) && s.writer.Draining? && s.writer.drained == {}
    requires forall id :: id in s.retire ==> HoldersOf(s.holds, id) == {}
    ensures |es| == 1 + |s.retire|
    ensures Exec(s, es) == s.(heap := s.heap - s.retire, retire := {})
  {
    forall id | id in s.retire ensures IsDrained(s, id) { ScanTakesIff(s, id); }
    var first := [Scan(s.retire)];
    ExecSnoc(s, [], Scan(s.retire));
    assert [] + first == first;
    ScanKeepsInv(s, s.retire);
    es := FreesFollow(s, first, s.retire);
    assert s.retire - s.retire == {};
  }

  /** Shutdown reports TRUE exactly when everything allocated has been freed; otherwise each
      remaining snapshot is on the retire list and the runtime is blocked. */
  lemma ShutdownReport(s: State)
    requires Inv(s) && s.writer.Closing? && s.retire == {}
    ensures var s' := ShutFinishStep(s);
      && (!s'.inited <==> s'.heap == map[])
      && s'.retire == s'.heap.Keys
      && (s'.inited ==> s'.blocked)
      && s'.current.None? && s'.slot.None?
  {
    var s' := ShutFinishStep(s);
    forall id ensures id in s'.heap <==> id in s'.retire {
      assert Tracked(s, id);
    }
    assert s'.retire == s'.heap.Keys;
  }

  // ---- immutability, and what readers and writers see ----

  /** Content never changes while a snapshot stays allocated, except the version stamped on a
      private one by the W step that publishes it. */
  lemma ContentStable(s: State, e: Event, id: Id)
    requires Inv(s) && id in s.heap && id in Next(s, e).heap
    ensures Next(s, e).heap[id].content == s.heap[id].content || (e.Swap? && IsMade(s.writer, id))
  {
    if Quiet(e) {
      QuietFrame(s, e);
    } else if e.Acquire? || e.Release? {
      ReaderContent(s, e, id);
    } else if e.Swap? {
      SwapFrame(s, id);
    } else if e.ShutSwap? {
      ShutSwapFrame(s, id);
    }
  }

  lemma ReaderContent(s: State, e: Event, id: Id)
    requires (e.Acquire? || e.Release?) && id in s.heap
    ensures id in Next(s, e).heap && Next(s, e).heap[id].content == s.heap[id].content
  {
    if e.Acquire? { AcquireContent(s, e.t, id); } else { ReleaseContent(s, e.t, id); }
  }

  lemma AcquireContent(s: State, t: Reader, id: Id)
    requires id in s.heap
    ensures id in AcquireStep(s, t).heap && AcquireStep(s, t).heap[id].content == s.heap[id].content
  {
  }

  lemma ReleaseContent(s: State, t: Reader, id: Id)
    requires id in s.heap
    ensures id in ReleaseStep(s, t).heap && ReleaseStep(s, t).heap[id].content == s.heap[id].content
  {
  }

  lemma ReaderKeepsWriter(s: State, e: Event)
    requires e.Acquire? || e.Release?
    ensures Next(s, e).writer == s.writer
  {
    if e.Acquire? { AcquireKeepsPointers(s, e.t); } else { ReleaseKeepsPointers(s, e.t); }
  }

  lemma RetireFrame(s: State, id: Id, x: Id)
    ensures Retire(s, id).holds == s.holds
    ensures x in Retire(s, id).heap <==> x in s.heap
    ensures x in s.heap ==> Retire(s, id).heap[x].content == s.heap[x].content
  {
    if id in s.heap && id !in s.retire {
      assert Retire(s, id).heap == s.heap[id := s.heap[id].(count := SetStop(s.heap[id].count))];
    }
  }

  lemma RetireOptFrame(s: State, o: Option<Id>, x: Id)
    ensures RetireOpt(s, o).holds == s.holds
    ensures x in RetireOpt(s, o).heap <==> x in s.heap
    ensures x in s.heap ==> RetireOpt(s, o).heap[x].content == s.heap[x].content
  {
    if o.Some? {
      RetireFrame(s, o.value, x);
    }
  }

  lemma SwapPublishFrame(s: State, prev: Id, made: Id, x: Id)
    requires prev in s.heap && made in s.heap
    ensures SwapPublish(s, prev, made).holds == s.holds
    ensures x in s.heap && x != made ==>
      x in SwapPublish(s, prev, made).heap && SwapPublish(s, prev, made).heap[x].content == s.heap[x].content
  {
    RetireOptFrame(Install(s, prev, made).(slot := Some(prev)), s.slot, x);
  }

  lemma SwapRollbackFrame(s: State, prev: Id, made: Id, rb: Id, x: Id)
    requires prev in s.heap && made in s.heap
    ensures SwapRollback(s, prev, made, rb).holds == s.holds
    ensures x in s.heap && x != made ==>
      x in SwapRollback(s, prev, made, rb).heap
      && SwapRollback(s, prev, made, rb).heap[x].content == s.heap[x].content
  {
    var s1 := Install(s, prev, made).(slot := None);
    RetireFrame(s1, prev, x);
    RetireFrame(Retire(s1, prev), rb, x);
  }

  lemma SwapFrame(s: State, x: Id)
    ensures SwapStep(s).holds == s.holds
    ensures x in s.heap && x in SwapStep(s).heap && !IsMade(s.writer, x) ==>
      SwapStep(s).heap[x].content == s.heap[x].content
  {
    if !s.writer.Draining? || s.writer.drained != {} {
    } else if !Writable(s) {
    } else if s.current.None? || s.current.value !in s.heap || s.writer.made !in s.heap {
    } else if s.writer.op.Publish? {
      SwapPublishFrame(s, s.current.value, s.writer.made, x);
    } else {
      SwapRollbackFrame(s, s.current.value, s.writer.made, s.writer.op.rb, x);
    }
  }

  lemma ShutSwapFrame(s: State, x: Id)
    ensures ShutSwapStep(s).holds == s.holds
    ensures x in s.heap ==> x in ShutSwapStep(s).heap && ShutSwapStep(s).heap[x].content == s.heap[x].content
  {
    var s1 := s.(closed := true, current := None, slot := None, writer := Closing({}));
    RetireOptFrame(s1, s.current, x);
    RetireOptFrame(RetireOpt(s1, s.current), s.slot, x);
  }

  lemma OnlyReleaseDrops(s: State, e: Event, t: Reader)
    requires Inv(s) && t in s.holds && e != Release(t)
    ensures t in Next(s, e).holds && Next(s, e).holds[t] == s.holds[t]
  {
    if Quiet(e) {
      QuietFrame(s, e);
    } else if e.Swap? {
      SwapFrame(s, 0);
    } else if e.ShutSwap? {
      ShutSwapFrame(s, 0);
    }
  }

  lemma HeldStays(s: State, e: Event, t: Reader)
    requires Inv(s) && t in s.holds && e != Release(t)
    ensures t in Next(s, e).holds && Next(s, e).holds[t] == s.holds[t]
    ensures s.holds[t] in s.heap && s.holds[t] in Next(s, e).heap
    ensures Next(s, e).heap[s.holds[t]].content == s.heap[s.holds[t]].content
  {
    var id := s.holds[t];
    OnlyReleaseDrops(s, e, t);
    HeldIsAllocated(s, t);
    NextKeepsInv(s, e);
    HeldIsAllocated(Next(s, e), t);
    assert !IsMade(s.writer, id) by {
      assert Tracked(s, id);
      assert t in HoldersOf(s.holds, id);
    }
    ContentStable(s, e, id);
  }

  function CurrentContent(s: State): Snapshot
    requires Inv(s) && s.current.Some?
  {
    assert Tracked(s, s.current.value);
    s.heap[s.current.value].content
  }

  /** From its Acquire until its Release a reader sees one unchanging snapshot: the one that was
      current at the Acquire, whatever is published meanwhile. */
  lemma {:induction false} ReaderSeesAcquiredSnapshot(s: State, t: Reader, es: seq<Event>)
    requires Inv(s) && t !in s.holds && t in AcquireStep(s, t).holds
    requires forall i :: 0 <= i < |es| ==> es[i] != Release(t)
    ensures var s' := Exec(Next(s, Acquire(t)), es);
      && Inv(s') && t in s'.holds && s'.holds[t] == s.current.value && s'.holds[t] in s'.heap
      && s'.heap[s'.holds[t]].content == CurrentContent(s)
  {
    NextKeepsInv(s, Acquire(t));
    if |es| == 0 {
      assert Tracked(s, s.current.value);
    } else {
      var before := es[..|es| - 1];
      ReaderSeesAcquiredSnapshot(s, t, before);
      HeldStays(Exec(Next(s, Acquire(t)), before), es[|es| - 1], t);
      NextKeepsInv(Exec(Next(s, Acquire(t)), before), es[|es| - 1]);
    }
  }

  // ---- refinement: the published view moves only at the W steps, and moves as specified ----

  function ContentOf(s: State, o: Option<Id>): Option<Snapshot> {
    if o.Some? && o.value in s.heap then Some(s.heap[o.value].content) else None
  }

  function ViewOf(s: State): StoreView.View {
    StoreView.View(ContentOf(s, s.current), ContentOf(s, s.slot))
  }

  /** The snapshot being built holds what the operation asked for. */
  ghost predicate DraftOk(s: State) {
    s.writer.Draining? ==>
      && s.writer.made in s.heap
      && match s.writer.op
         case Publish(rules, policy) => s.heap[s.writer.made].content == Snapshot(rules, 0, policy)
         case Rollback(rb) => rb in s.heap && s.heap[s.writer.made].content == s.heap[rb].content.(version := 0)
  }

  /** A W step that goes through. */
  predicate Commits(s: State, e: Event) {
    e.Swap? && s.writer.Draining? && s.writer.drained == {} && Writable(s)
  }

  lemma CommitPublish(s: State)
    requires Inv(s) && DraftOk(s) && Commits(s, Swap) && s.writer.op.Publish?
    ensures s.current.Some? && s.current.value in s.heap
    ensures ViewOf(SwapStep(s)) == StoreView.Publish(ViewOf(s), s.writer.op.rules, s.writer.op.policy)
  {
    var prev, made := s.current.value, s.writer.made;
    assert Tracked(s, prev) && Tracked(s, made);
    var s1 := Install(s, prev, made).(slot := Some(prev));
    RetireOptFrame(s1, s.slot, made);
    RetireOptFrame(s1, s.slot, prev);
    var s' := RetireOpt(s1, s.slot);
    assert s'.current == Some(made) && s'.slot == Some(prev);
  }

  lemma CommitRollback(s: State)
    requires Inv(s) && DraftOk(s) && Commits(s, Swap) && s.writer.op.Rollback?
    ensures ViewOf(s).current.Some? && ViewOf(s).slot.Some?
    ensures ViewOf(SwapStep(s)) == StoreView.Rollback(ViewOf(s))
  {
    var prev, made, rb := s.current.value, s.writer.made, s.writer.op.rb;
    assert Tracked(s, prev) && Tracked(s, made) && Tracked(s, rb);
    var s1 := Install(s, prev, made).(slot := None);
    RetireFrame(s1, prev, made);
    RetireFrame(Retire(s1, prev), rb, made);
  }

  /** The published view before and after every step. */
  lemma NextRefinesView(s: State, e: Event)
    requires Inv(s) && DraftOk(s)
    ensures Commits(s, e) && s.writer.op.Publish? ==>
      && ViewOf(s).current.Some?
      && ViewOf(Next(s, e)) == StoreView.Publish(ViewOf(s), s.writer.op.rules, s.writer.op.policy)
    ensures Commits(s, e) && s.writer.op.Rollback? ==>
      && ViewOf(s).current.Some? && ViewOf(s).slot.Some?
      && ViewOf(Next(s, e)) == StoreView.Rollback(ViewOf(s))
    ensures e.ShutSwap? && s.writer == ShutEntered ==> ViewOf(Next(s, e)) == StoreView.CLOSED
    ensures e.Init? && Next(s, e) != s ==> ViewOf(Next(s, e)) == StoreView.EMPTY
    ensures !Commits(s, e) && !e.ShutSwap? && !e.Init? ==> ViewOf(Next(s, e)) == ViewOf(s)
    ensures e.ShutSwap? && s.writer != ShutEntered ==> Next(s, e) == s
  {
    if Commits(s, e) {
      if s.writer.op.Publish? {
        CommitPublish(s);
      } else {
        CommitRollback(s);
      }
    } else if e.ShutSwap? {
      ShutSwapView(s);
    } else if !e.Init? {
      ViewUnmoved(s, e);
    }
  }

  // ---- the write gate, on its three flags ----

  /** A finished draft is published if and only if the store is initialised and open and the runtime
      active; otherwise it is freed and the writer leaves. */
  lemma GateDecides(s: State)
    requires Inv(s) && DraftOk(s) && s.writer.Draining? && s.writer.drained == {}
    ensures ViewOf(Next(s, Swap)) != ViewOf(s) <==> s.inited && !s.closed && s.active
    ensures !(s.inited && !s.closed && s.active) ==>
      Next(s, Swap) == s.(heap := s.heap - {s.writer.made}, writer := Unlocked)
  {
    NextRefinesView(s, Swap);
    assert Tracked(s, s.writer.made);
    if !(s.inited && !s.closed && s.active) {
      assert Next(s, Swap) == Free(s, s.writer.made).(writer := Unlocked);
    }
  }

  /** A writer gets in if and only if the gate is open, and a rollback only with a slot. */
  lemma LockEntersIff(s: State, rules: seq<Rule>, policy: u32)
    requires Inv(s) && s.writer == Unlocked
    ensures Next(s, Lock(rules, policy)).writer ==
      if s.inited && !s.closed && s.active then Entered(Publish(rules, policy)) else Unlocked
    ensures Next(s, LockRollback).writer ==
      if s.inited && !s.closed && s.active && s.slot.Some? then Entered(Rollback(s.slot.value)) else Unlocked
  {
    if s.current.Some? { assert Tracked(s, s.current.value); }
  }

  /** Shutdown gets in unless there is nothing to shut or the runtime is blocked; the empty snapshot
      is installed only after a complete shutdown and not when blocked. */
  lemma ShutAndInitIff(s: State, id: Id)
    requires Inv(s) && s.writer == Unlocked && id !in s.heap
    ensures Next(s, ShutLock).writer == if s.inited && !s.blocked then ShutEntered else Unlocked
    ensures ViewOf(Next(s, Init(id))) == if !s.inited && !s.blocked then StoreView.EMPTY else ViewOf(s)
    ensures !s.inited && !s.blocked ==>
      && Next(s, Init(id)).inited && !Next(s, Init(id)).closed
      && ViewOf(Next(s, Init(id))).current == Some(Snapshot([], 0, POLICY_PERMIT))
  {
    if s.inited || s.blocked { assert Next(s, Init(id)) == s; } else { assert Next(s, Init(id)).current == Some(id); }
  }

  lemma InactiveStep(s: State, e: Event)
    requires Inv(s) && DraftOk(s) && !s.active
    ensures !e.ShutSwap? && !e.Init? ==> ViewOf(Next(s, e)) == ViewOf(s)
    ensures Next(s, e).writer.Entered? ==> Next(s, e).writer == s.writer
    ensures e != SetActive(true) ==> !Next(s, e).active
  {
    NextRefinesView(s, e);
    InactiveWriter(s, e);
  }

  lemma InactiveWriter(s: State, e: Event)
    requires Inv(s) && !s.active
    ensures Next(s, e).writer.Entered? ==> Next(s, e).writer == s.writer
    ensures e != SetActive(true) ==> !Next(s, e).active
  {
    if Quiet(e) {
      QuietFrame(s, e);
    } else if e.Acquire? || e.Release? {
      ReaderKeepsWriter(s, e);
    } else if e.Swap? {
      if s.writer.Draining? && s.writer.drained == {} { GateShut(s); }
    } else if e.ShutSwap? {
      ShutSwapView(s);
    }
  }

  lemma GateShut(s: State)
    requires s.writer.Draining? && s.writer.drained == {} && !s.active
    ensures SwapStep(s) == Free(s, s.writer.made).(writer := Unlocked)
  {
  }

  /** Once the runtime is no longer active, on every schedule that does not activate it again nothing
      is published: readers see what was current, until shutdown takes it away. */
  lemma {:induction false} NothingPublishedInactive(s: State, es: seq<Event>)
    requires Inv(s) && DraftOk(s) && !s.active
    requires forall i :: 0 <= i < |es| ==> es[i] != SetActive(true) && !es[i].ShutSwap? && !es[i].Init?
    ensures ViewOf(Exec(s, es)) == ViewOf(s) && !Exec(s, es).active
    ensures Inv(Exec(s, es)) && DraftOk(Exec(s, es))
  {
    if |es| > 0 {
      var u := Exec(s, es[..|es| - 1]);
      NothingPublishedInactive(s, es[..|es| - 1]);
      InactiveStep(u, es[|es| - 1]);
      NextKeepsInv(u, es[|es| - 1]);
      NextKeepsDraft(u, es[|es| - 1]);
    }
  }

  lemma ShutSwapView(s: State)
    ensures s.writer == ShutEntered ==>
      ViewOf(ShutSwapStep(s)) == StoreView.CLOSED && ShutSwapStep(s).writer == Closing({})
  {
    var s1 := s.(closed := true, current := None, slot := None, writer := Closing({}));
    RetireOptPointers(s1, s.current);
    RetireOptPointers(RetireOpt(s1, s.current), s.slot);
  }

  lemma RetireOptPointers(s: State, o: Option<Id>)
    ensures RetireOpt(s, o).current == s.current && RetireOpt(s, o).slot == s.slot
    ensures RetireOpt(s, o).writer == s.writer
  {
    if o.Some? { RetirePointers(s, o.value); }
  }

  lemma RetirePointers(s: State, id: Id)
    ensures Retire(s, id).current == s.current && Retire(s, id).slot == s.slot && Retire(s, id).writer == s.writer
  {
    if id in s.heap && id !in s.retire {
      RetireIs(s, id, id);
    } else {
      assert Retire(s, id) == s.(fault := true);
    }
  }

  lemma ViewUnmoved(s: State, e: Event)
    requires Inv(s) && !Commits(s, e) && !e.ShutSwap? && !e.Init?
    ensures ViewOf(Next(s, e)) == ViewOf(s)
  {
    if s.current.Some? {
      assert Tracked(s, s.current.value);
      KeptWhileRunning(s, e, s.current.value);
    }
    if s.slot.Some? {
      assert Tracked(s, s.slot.value);
      KeptWhileRunning(s, e, s.slot.value);
    }
    PointersUnmoved(s, e);
  }

  lemma PointersUnmoved(s: State, e: Event)
    requires Inv(s) && !Commits(s, e) && !e.ShutSwap? && !e.Init?
    ensures Next(s, e).current == s.current && Next(s, e).slot == s.slot
  {
    if Quiet(e) {
      QuietFrame(s, e);
    } else if e.Acquire? || e.Release? {
      ReaderKeepsPointers(s, e);
    } else if e.Swap? {
      IdleSwapPointers(s);
    }
  }

  lemma ReaderKeepsPointers(s: State, e: Event)
    requires e.Acquire? || e.Release?
    ensures Next(s, e).current == s.current && Next(s, e).slot == s.slot
  {
    if e.Acquire? { AcquireKeepsPointers(s, e.t); } else { ReleaseKeepsPointers(s, e.t); }
  }

  lemma AcquireKeepsPointers(s: State, t: Reader)
    ensures AcquireStep(s, t).current == s.current && AcquireStep(s, t).slot == s.slot
    ensures AcquireStep(s, t).writer == s.writer
  {
  }

  lemma ReleaseKeepsPointers(s: State, t: Reader)
    ensures ReleaseStep(s, t).current == s.current && ReleaseStep(s, t).slot == s.slot
    ensures ReleaseStep(s, t).writer == s.writer
  {
  }

  lemma IdleSwapPointers(s: State)
    requires !Commits(s, Swap)
    ensures SwapStep(s).current == s.current && SwapStep(s).slot == s.slot
  {
    if s.writer.Draining? && s.writer.drained == {} {
      assert SwapStep(s) == Free(s, s.writer.made).(writer := Unlocked);
    } else {
      assert SwapStep(s) == s;
    }
  }

  /** Current and the rollback slot are neither freed nor altered by such a step. */
  lemma KeptWhileRunning(s: State, e: Event, id: Id)
    requires Inv(s) && !Commits(s, e) && !e.ShutSwap? && !e.Init?
    requires s.current == Some(id) || s.slot == Some(id)
    ensures id in s.heap && id in Next(s, e).heap
    ensures Next(s, e).heap[id].content == s.heap[id].content
  {
    NextKeepsInv(s, e);
    PointersUnmoved(s, e);
    assert Tracked(s, id) && Tracked(Next(s, e), id);
    ContentStable(s, e, id);
  }

  lemma NextKeepsDraft(s: State, e: Event)
    requires Inv(s) && DraftOk(s)
    ensures DraftOk(Next(s, e))
  {
    NextKeepsInv(s, e);
    var s' := Next(s, e);
    if s'.writer.Draining? {
      if s.writer.Draining? {
        DraftUnmoved(s, e);
      } else {
        assert Tracked(s', s'.writer.made);
        assert e.Alloc? by { OnlyAllocBuilds(s, e); }
        if s.writer.op.Rollback? {
          assert Tracked(s, s.writer.op.rb);
        }
      }
    }
  }

  lemma OnlyAllocBuilds(s: State, e: Event)
    requires Inv(s) && Next(s, e).writer.Draining? && !s.writer.Draining?
    ensures e.Alloc?
  {
    if Quiet(e) {
      QuietFrame(s, e);
    } else if e.ShutSwap? {
      ShutSwapView(s);
    } else if e.Acquire? || e.Release? {
      ReaderKeepsWriter(s, e);
    }
  }

  lemma SameDraft(s: State, e: Event)
    requires Inv(s) && s.writer.Draining? && Next(s, e).writer.Draining? && !(e.Swap? && s.writer.drained == {})
    ensures Next(s, e).writer.op == s.writer.op && Next(s, e).writer.made == s.writer.made
  {
    if Quiet(e) {
      QuietFrame(s, e);
    } else if e.Acquire? || e.Release? {
      ReaderKeepsWriter(s, e);
    }
  }

  lemma DraftUnmoved(s: State, e: Event)
    requires Inv(s) && DraftOk(s) && s.writer.Draining? && Next(s, e).writer.Draining?
    ensures DraftOk(Next(s, e))
  {
    NextKeepsInv(s, e);
    var s' := Next(s, e);
    if s.writer.drained == {} {
      SwapLeaves(s);
    }
    if s' == s {
      return;
    }
    SameDraft(s, e);
    assert Tracked(s', s.writer.made);
    ContentStable(s, e, s.writer.made);
    if s.writer.op.Rollback? {
      var rb := s.writer.op.rb;
      assert Tracked(s, rb);
      KeptWhileRunning(s, e, rb);
    }
  }

  lemma SwapLeaves(s: State)
    requires Inv(s) && s.writer.Draining? && s.writer.drained == {}
    ensures !SwapStep(s).writer.Draining?
  {
    assert Tracked(s, s.writer.made);
    if Writable(s) {
      assert Tracked(s, s.current.value);
      var s1 := Install(s, s.current.value, s.writer.made);
      if s.writer.op.Publish? {
        RetireOptPointers(s1.(slot := Some(s.current.value)), s.slot);
      }
    }
  }
}
