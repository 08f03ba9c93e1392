/** The control queue's consumer thread: arrivals, the doorbell, and Quiesce's stop, join, purge. */
module ControlConsumer {
  import opened Sequences

  type RequestId = nat

  datatype Consumer =
    | Absent                          // never created
    | Draining                        // about to retrieve the next request
    | Holding(id: RequestId)          // retrieved, stop flag not yet read
    | Serving(id: RequestId, refuse: bool)   // dispatching it, or refusing it because of the stop
    | Emptied                         // a retrieve found the queue empty
    | Waiting                         // in EventWaitAny
    | Exited

  /** Where the caller of SkControlQuiesce is. */
  datatype Quiesce = Idle | Flagged | Signalled | Joined

  datatype State = ControlState(
    queue: seq<RequestId>, purged: bool,
    consumer: Consumer, thread: bool,             // `thread`: the handle is kept
    doorbell: bool, stopEvent: bool,              // auto-reset events
    notifies: nat,                                // ReadyNotify callbacks raised, not yet run
    stop: bool, quiesce: Quiesce,
    arrived: set<RequestId>, completed: multiset<RequestId>)

  /** The state SkControlInit leaves, with its thread or without: requests may already be queued. */
  ghost predicate Initial(s: State) {
    && (forall id :: multiset(s.queue)[id] == One(id in s.arrived))
    && s == ControlState(s.queue, false, if s.thread then Draining else Absent, s.thread, s.doorbell, false,
                         s.notifies, false, Idle, s.arrived, multiset{})
  }

  datatype Event =
    | Arrive(id: RequestId) | Notify
    | Retrieve | ReadStop | Complete | Wake(byDoorbell: bool) | Timeout
    | SetStop | Signal | Join(success: bool) | Purge

  /** The framework queues a request, raising ReadyNotify on empty to non-empty only; a purged
      queue completes it at once. */
  function ArriveStep(s: State, id: RequestId): State {
    if id in s.arrived then s
    else if s.purged then s.(arrived := s.arrived + {id}, completed := s.completed + multiset{id})
    else
      s.(arrived := s.arrived + {id}, queue := s.queue + [id],
         notifies := s.notifies + if s.queue == [] then 1 else 0)
  }

  function NotifyStep(s: State): State {
    if s.notifies == 0 then s else s.(notifies := s.notifies - 1, doorbell := true)
  }

  function ConsumerStep(s: State, e: Event): State {
    match s.consumer
    case Draining =>
      if !e.Retrieve? then s
      else if s.queue == [] then s.(consumer := Emptied)
      else s.(consumer := Holding(s.queue[0]), queue := s.queue[1..])
    case Holding(id) => if e.ReadStop? then s.(consumer := Serving(id, s.stop)) else s
    case Serving(id, _) =>
      if e.Complete? then s.(consumer := Draining, completed := s.completed + multiset{id}) else s
    case Emptied => if e.ReadStop? then s.(consumer := if s.stop then Exited else Waiting) else s
    case Waiting => WakeStep(s, e)
    case _ => s
  }

  /** A wait ends by an event, which it resets, or by its very long timeout. */
  function WakeStep(s: State, e: Event): State {
    if e.Timeout? then s.(consumer := Draining)
    else if e.Wake? && e.byDoorbell && s.doorbell then s.(consumer := Draining, doorbell := false)
    else if e.Wake? && !e.byDoorbell && s.stopEvent then s.(consumer := Draining, stopEvent := false)
    else s
  }

  /** SkControlQuiesce; it may be called again after a join that failed. */
  function QuiesceStep(s: State, e: Event): State {
    match s.quiesce
    case Idle => if e.SetStop? then s.(stop := true, quiesce := Flagged) else s
    case Flagged => if e.Signal? then s.(stopEvent := true, quiesce := Signalled) else s
    case Signalled =>
      if !e.Join? then s
      else if !s.thread then s.(quiesce := Joined)
      else if !e.success then s.(quiesce := Idle)
      else if s.consumer.Exited? then s.(quiesce := Joined, thread := false)
      else s
    case Joined =>
      if e.Purge? then
        s.(quiesce := Idle, purged := true, queue := [], completed := s.completed + multiset(s.queue))
      else s
  }

  function Next(s: State, e: Event): State {
    match e
    case Arrive(id) => ArriveStep(s, id)
    case Notify => NotifyStep(s)
    case SetStop => QuiesceStep(s, e)
    case Signal => QuiesceStep(s, e)
    case Join(_) => QuiesceStep(s, e)
    case Purge => QuiesceStep(s, e)
    case _ => ConsumerStep(s, e)
  }

  function Exec(s: State, es: seq<Event>): State {
    if |es| == 0 then s else Next(Exec(s, es[..|es| - 1]), es[|es| - 1])
  }

  // ---- the invariant ----

  predicate InHand(s: State, id: RequestId) {
    (s.consumer.Holding? || s.consumer.Serving?) && s.consumer.id == id
  }

  /** A request that arrived is in one place: queued, in the consumer's hand, or completed. */
  ghost predicate OneOwner(s: State, id: RequestId) {
    multiset(s.queue)[id] + One(InHand(s, id)) + s.completed[id] == One(id in s.arrived)
  }

  /** A consumer past its drain that has work has a wakeup; one that must stop has the other. */
  ghost predicate Wakeups(s: State) {
    && ((s.consumer.Emptied? || s.consumer.Waiting?) && s.queue != [] ==> s.doorbell || s.notifies > 0)
    && (s.consumer.Waiting? && s.stop ==> s.stopEvent || s.quiesce.Flagged?)
  }

  ghost predicate Phases(s: State) {
    && (s.stopEvent ==> s.stop) && (!s.quiesce.Idle? ==> s.stop)
    && (s.consumer.Exited? ==> s.stop)
    && (s.quiesce.Joined? || s.purged ==> !s.thread)
    && (!s.thread ==> s.consumer.Exited? || s.consumer.Absent?)
    && (s.thread ==> !s.consumer.Absent?)
    && (s.purged ==> s.queue == [])
  }

  ghost predicate Inv(s: State) {
    (forall id :: OneOwner(s, id)) && Wakeups(s) && Phases(s)
  }

  lemma ArriveKeepsOwner(s: State, r: RequestId, id: RequestId)
    requires OneOwner(s, id) && OneOwner(s, r)
    ensures OneOwner(ArriveStep(s, r), id)
  {
  }

  lemma RetrieveKeepsOwner(s: State, id: RequestId)
    requires OneOwner(s, id) && s.consumer.Draining?
    ensures OneOwner(ConsumerStep(s, Retrieve), id)
  {
    if s.queue != [] {
      assert s.queue == [s.queue[0]] + s.queue[1..];
      assert multiset(s.queue)[id] == One(s.queue[0] == id) + multiset(s.queue[1..])[id];
    }
  }

  lemma CompleteKeepsOwner(s: State, id: RequestId)
    requires OneOwner(s, id) && s.consumer.Serving?
    ensures OneOwner(ConsumerStep(s, Complete), id)
  {
  }

  lemma QuietConsumer(s: State, e: Event, id: RequestId)
    requires !(s.consumer.Draining? && e.Retrieve?) && !(s.consumer.Serving? && e.Complete?)
    ensures var t := ConsumerStep(s, e);
            && t.queue == s.queue && t.completed == s.completed && t.arrived == s.arrived
            && InHand(t, id) == InHand(s, id)
  {
    if s.consumer.Waiting? {
      var t := WakeStep(s, e);
      assert t == s || t.consumer == Draining;
    }
  }

  lemma ConsumerKeepsOwner(s: State, e: Event, id: RequestId)
    requires OneOwner(s, id)
    ensures OneOwner(ConsumerStep(s, e), id)
  {
    if s.consumer.Draining? && e.Retrieve? {
      RetrieveKeepsOwner(s, id);
    } else if s.consumer.Serving? && e.Complete? {
      CompleteKeepsOwner(s, id);
    } else {
      QuietConsumer(s, e, id);
    }
  }

  lemma QuiesceKeepsOwner(s: State, e: Event, id: RequestId)
    requires OneOwner(s, id)
    ensures OneOwner(QuiesceStep(s, e), id)
  {
  }

  lemma WakeKeepsFlags(s: State, e: Event)
    requires Wakeups(s) && Phases(s) && s.consumer.Waiting?
    ensures Wakeups(WakeStep(s, e)) && Phases(WakeStep(s, e))
  {
  }

  lemma ConsumerKeepsFlags(s: State, e: Event)
    requires Wakeups(s) && Phases(s)
    ensures Wakeups(ConsumerStep(s, e)) && Phases(ConsumerStep(s, e))
  {
    if s.consumer.Waiting? { WakeKeepsFlags(s, e); }
  }

  lemma QuiesceKeepsFlags(s: State, e: Event)
    requires Wakeups(s) && Phases(s)
    ensures Wakeups(QuiesceStep(s, e)) && Phases(QuiesceStep(s, e))
  {
  }

  lemma NextKeepsFlags(s: State, e: Event)
    requires Wakeups(s) && Phases(s)
    ensures Wakeups(Next(s, e)) && Phases(Next(s, e))
  {
    QuiesceKeepsFlags(s, e);
    ConsumerKeepsFlags(s, e);
  }

  lemma NextKeepsInv(s: State, e: Event)
    requires Inv(s)
    ensures Inv(Next(s, e))
  {
    NextKeepsFlags(s, e);
    forall id ensures OneOwner(Next(s, e), id) {
      assert OneOwner(s, id);
      match e
      case Arrive(r) => assert OneOwner(s, r); ArriveKeepsOwner(s, r, id);
      case _ => QuiesceKeepsOwner(s, e, id); ConsumerKeepsOwner(s, e, id);
    }
  }

  lemma {:induction false} ExecKeepsInv(s: State, es: seq<Event>)
    requires Inv(s)
    ensures Inv(Exec(s, es))
  {
    if |es| > 0 {
      ExecKeepsInv(s, es[..|es| - 1]);
      NextKeepsInv(Exec(s, es[..|es| - 1]), es[|es| - 1]);
    }
  }

  ghost predicate Reachable(s: State) { exists start, es :: Initial(start) && s == Exec(start, es) }

  lemma ReachableInv(s: State)
    requires Reachable(s)
    ensures Inv(s)
  {
    var start, es :| Initial(start) && s == Exec(start, es);
    forall id ensures OneOwner(start, id) { assert multiset(start.queue)[id] == One(id in start.arrived); }
    ExecKeepsInv(start, es);
  }

  // ---- requests ----

  /** No request is completed twice, none vanishes: an uncompleted one is queued or in hand. */
  lemma CompletedAtMostOnce(s: State, id: RequestId)
    requires Reachable(s)
    ensures s.completed[id] <= 1 && (s.completed[id] == 1 ==> id in s.arrived)
    ensures id in s.arrived && s.completed[id] == 0 ==>
              (multiset(s.queue)[id] == 1 && !InHand(s, id)) || (id !in s.queue && InHand(s, id))
  {
    ReachableInv(s);
    assert OneOwner(s, id);
  }

  lemma PurgedStays(s: State, e: Event)
    requires Inv(s) && s.purged
    ensures Next(s, e).purged && Next(s, e).consumer == s.consumer
  {
  }

  lemma {:induction false} PurgedForever(s: State, es: seq<Event>)
    requires Inv(s) && s.purged
    ensures Exec(s, es).purged && Exec(s, es).consumer == s.consumer
  {
    if |es| > 0 {
      PurgedForever(s, es[..|es| - 1]);
      ExecKeepsInv(s, es[..|es| - 1]);
      PurgedStays(Exec(s, es[..|es| - 1]), es[|es| - 1]);
    }
  }

  /** After join and purge every request that has arrived is completed exactly once, and so is every
      later one, with no consumer left to run. */
  lemma AfterPurgeAllCompleted(s: State, es: seq<Event>)
    requires Reachable(s) && s.purged
    ensures var t := Exec(s, es);
            && t.queue == [] && (t.consumer.Exited? || t.consumer.Absent?)
            && forall id :: t.completed[id] == One(id in t.arrived)
  {
    ReachableInv(s);
    PurgedForever(s, es);
    ExecKeepsInv(s, es);
    var t := Exec(s, es);
    forall id ensures t.completed[id] == One(id in t.arrived) { assert OneOwner(t, id); }
  }

  /** The purge cannot come before the consumer is gone. */
  lemma PurgeOnlyAfterExit(s: State)
    requires Reachable(s) && (s.quiesce.Joined? || s.purged)
    ensures s.consumer.Exited? || s.consumer.Absent?
  {
    ReachableInv(s);
  }

  // ---- wakeups ----

  /** In the wait with neither event signalled. */
  predicate Blocked(s: State) { s.consumer.Waiting? && !s.doorbell && !s.stopEvent }

  /** No wakeup is lost: a blocked consumer has no work, or the callback that rings for it is still
      to run; and it need not stop, or Quiesce is between its flag and its signal. */
  lemma BlockedHasNothingToDo(s: State)
    requires Reachable(s) && Blocked(s)
    ensures s.queue == [] || s.notifies > 0
    ensures !s.stop || s.quiesce.Flagged?
  {
    ReachableInv(s);
  }

  /** A request retrieved once the stop flag is set is refused; one retrieved before is refused exactly
      when the flag is set by the time the consumer reads it. */
  lemma RefusesOnceStopped(s: State, id: RequestId)
    requires s.consumer == Holding(id)
    ensures Next(s, ReadStop).consumer == Serving(id, s.stop)
    ensures Next(Next(s, ReadStop), Complete).completed == s.completed + multiset{id}
  {
  }

  // ---- the join ends ----

  /** The consumer's next move when it runs alone. */
  function Move(s: State): Event {
    match s.consumer
    case Draining => Retrieve
    case Holding(_) => ReadStop
    case Serving(_, _) => Complete
    case Emptied => ReadStop
    case _ => Wake(s.doorbell)
  }

  function Alone(s: State, n: nat): State
    decreases n
  {
    if n == 0 then s else Alone(Next(s, Move(s)), n - 1)
  }

  function StepsLeft(s: State): nat {
    match s.consumer
    case Draining => 2 + 3 * |s.queue|
    case Holding(_) => 4 + 3 * |s.queue|
    case Serving(_, _) => 3 + 3 * |s.queue|
    case Emptied => 1
    case Waiting => 3 + 3 * |s.queue|
    case _ => 0
  }

  /** Once Quiesce has signalled, the consumer left to run finishes what it holds and what is
      queued, and exits: the join is not waiting for ever. */
  lemma {:induction false} ConsumerExits(s: State)
    requires Inv(s) && s.stop && !s.quiesce.Flagged? && s.thread
    ensures Alone(s, StepsLeft(s)).consumer.Exited?
    decreases StepsLeft(s)
  {
    if !s.consumer.Exited? {
      var t := Next(s, Move(s));
      NextKeepsInv(s, Move(s));
      assert StepsLeft(t) == StepsLeft(s) - 1;
      ConsumerExits(t);
    }
  }
}
