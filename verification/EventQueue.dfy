/** The telemetry queue: producers, the consumer thread, start and the first stop, interleaved.

    The queue lock is held across the steps of one producer section. The stop flag is set under
    startLock only, so it can change between any two steps of such a section: safety rests on the
    producer count together with the recheck made while counted. */
module EventQueue {
  import opened RuleTypes
  import opened Sequences

  type PostId = nat   // one ShEventPost or ShEventPostRecord call

  /** An event carries a counter and a reference to release; a record carries neither. */
  datatype Kind = Event | Record

  /** Where a posting call is. */
  datatype At =
    | Gate                    // in the lock, read stopping == 0, not yet counted
    | Inside                  // counted, lock released
    | Checked                 // in the lock again, reread stopping == 0
    | Leaving(linked: bool, over: bool)   // lock released, still counted
    | Drop(over: bool)        // to release in place: counter, then sink, then statistics
    | DropSink(over: bool)
    | DropTally(over: bool)
    | DropOver                // overflowDropped still to be counted
    | Posting                 // linked; posted still to be counted
    | Dropped(over: bool)     // returned FALSE
    | Posted                  // returned TRUE

  datatype Call = Call(kind: Kind, at: At)

  /** A node being consumed outside the lock: counter, then sink, then statistics. */
  datatype Hand = Empty | Taken(id: PostId) | Released(id: PostId)

  datatype Consumer = NoThread | Waiting | TimedOut | SawStop | Popping | Exited

  datatype Stop =
    | Before
    | Flagged            // stopping set, thread object taken
    | Waited             // producers read as zero
    | Draining           // joined, or nothing to join
    | GaveUp             // producers stuck: returned a timeout
    | JoinFailed         // the join failed: returned its status
    | Done(ok: bool)     // drained: STATUS_SUCCESS, or a timeout when pending is not zero

  datatype State = QueueState(
    list: seq<PostId>, pending: int, capacity: nat,
    lock: Option<PostId>,
    stopping: bool, producers: int,
    calls: map<PostId, Call>,
    consumer: Consumer, hand: Hand,
    threadObject: bool, joins: bool,
    stop: Stop,
    posted: nat, consumed: nat, dropped: nat, overflowDropped: nat,
    decs: multiset<PostId>, sinks: multiset<PostId>,   // effects on counters and references
    linked: seq<PostId>, done: seq<PostId>)            // history: nodes linked, nodes consumed

  function Initial(capacity: nat): State {
    QueueState([], 0, capacity, None, false, 0, map[], NoThread, Empty, false, false, Before,
               0, 0, 0, 0, multiset{}, multiset{}, [], [])
  }

  datatype Step =
    | Enter(kind: Kind) | Count | NoMemory | Recheck | Link | Leave | Settle

  datatype Event =
    | Post(p: PostId, step: Step)
    | Start
    | Wait(signaled: bool) | ReadStop | ReadPending | Pop | Finish
    | StopFlag | StopPoll | StopGiveUp | StopJoin(joined: bool) | DrainPop

  // ---- the steps ----

  function Move(s: State, p: PostId, at: At): (t: State)
    requires p in s.calls
    ensures SameRest(s, t)
  {
    s.(calls := s.calls[p := s.calls[p].(at := at)])
  }

  /** The list, the threads and Stop are as they were. */
  predicate SameRest(s: State, t: State) {
    && t.list == s.list && t.pending == s.pending && t.linked == s.linked && t.hand == s.hand && t.done == s.done
    && t.stop == s.stop && t.stopping == s.stopping && t.consumer == s.consumer
    && t.threadObject == s.threadObject && t.joins == s.joins && t.capacity == s.capacity
  }

  function PostStep(s: State, p: PostId, e: Step): (t: State)
    ensures SameRest(s, t) || (p in s.calls && s.calls[p].at.Checked?)
  {
    if e.Enter? then EnterStep(s, p, e.kind)
    else if p !in s.calls then s
    else match s.calls[p].at
      case Gate => if e.Count? then CountStep(s, p) else s
      case Inside =>
        if e.NoMemory? then Move(s, p, Leaving(false, false))
        else if e.Recheck? && s.lock.None? then RecheckStep(s, p)
        else s
      case Checked => if e.Link? then LinkStep(s, p) else s
      case Leaving(linked, over) => if e.Leave? then LeaveStep(s, p, linked, over) else s
      case _ => if e.Settle? then SettleStep(s, p) else s
  }

  /** The producer gate: the stop flag is read in the lock, the count is a later step. */
  function EnterStep(s: State, p: PostId, kind: Kind): State {
    if p in s.calls || s.lock.Some? then s
    else if s.stopping then s.(calls := s.calls[p := Call(kind, Drop(false))])
    else s.(calls := s.calls[p := Call(kind, Gate)], lock := Some(p))
  }

  function CountStep(s: State, p: PostId): State
    requires p in s.calls
  {
    Move(s, p, Inside).(producers := s.producers + 1, lock := None)
  }

  /** Counted, in the lock again: the stop flag is read a second time. */
  function RecheckStep(s: State, p: PostId): State
    requires p in s.calls
  {
    if s.stopping then Move(s, p, Leaving(false, false)) else Move(s, p, Checked).(lock := Some(p))
  }

  /** Still in the lock: drop the newest when full, else append. */
  function LinkStep(s: State, p: PostId): State
    requires p in s.calls
  {
    if Full(s) then Move(s, p, Leaving(false, true)).(lock := None) else AppendStep(s, p)
  }

  function AppendStep(s: State, p: PostId): State
    requires p in s.calls
  {
    Move(s, p, Leaving(true, false)).(list := s.list + [p], pending := s.pending + 1, lock := None,
                                      linked := s.linked + [p])
  }

  function LeaveStep(s: State, p: PostId, linked: bool, over: bool): State
    requires p in s.calls
  {
    Move(s, p, if linked then Posting else Drop(over)).(producers := s.producers - 1)
  }

  /** What a call does after leaving: balance in place when dropped, count either way. */
  function SettleStep(s: State, p: PostId): (t: State)
    requires p in s.calls
    ensures SameRest(s, t)
  {
    match s.calls[p].at
    case Drop(over) => DropCounter(s, p, over)
    case DropSink(over) => DropReference(s, p, over)
    case DropTally(over) => CountDrop(s, p, over)
    case DropOver => CountOverflow(s, p)
    case Posting => CountPost(s, p)
    case _ => s
  }

  function DropCounter(s: State, p: PostId, over: bool): (t: State)
    requires p in s.calls
    ensures SameRest(s, t)
  {
    if s.calls[p].kind.Event? then Move(s, p, DropSink(over)).(decs := s.decs + multiset{p})
    else Move(s, p, DropTally(over))
  }

  function DropReference(s: State, p: PostId, over: bool): (t: State)
    requires p in s.calls
    ensures SameRest(s, t)
  {
    Move(s, p, DropTally(over)).(sinks := s.sinks + multiset{p})
  }

  function CountDrop(s: State, p: PostId, over: bool): (t: State)
    requires p in s.calls
    ensures SameRest(s, t)
  {
    Move(s, p, if over then DropOver else Dropped(false)).(dropped := s.dropped + 1)
  }

  /** The record path rereads the stop flag before it counts the overflow. */
  function CountOverflow(s: State, p: PostId): (t: State)
    requires p in s.calls
    ensures SameRest(s, t)
  {
    if s.calls[p].kind.Record? && s.stopping then Move(s, p, Dropped(false))
    else Move(s, p, Dropped(true)).(overflowDropped := s.overflowDropped + 1)
  }

  function CountPost(s: State, p: PostId): (t: State)
    requires p in s.calls
    ensures SameRest(s, t)
  {
    Move(s, p, Posted).(posted := s.posted + 1)
  }

  predicate IsEvent(s: State, p: PostId) { p in s.calls && s.calls[p].kind.Event? }

  /** What consumer, start and stop leave alone; the list too while a producer is in the lock. */
  predicate SameCalls(s: State, t: State) {
    && t.calls == s.calls && t.linked == s.linked && t.capacity == s.capacity && t.lock == s.lock
    && (s.stopping ==> t.stopping)
    && (s.lock.Some? ==> t.list == s.list && t.pending == s.pending)
  }

  /** RemoveHeadList under the lock, by the consumer or by the final drain. */
  function PopHead(s: State): State
    requires s.list != []
  {
    s.(list := s.list[1..], pending := s.pending - 1, hand := Taken(s.list[0]))
  }

  /** shEventNodeConsume: counter, then sink and count. */
  function FinishHand(s: State): (t: State)
    ensures SameCalls(s, t)
  {
    match s.hand
    case Empty => s
    case Taken(p) =>
      s.(hand := Released(p), decs := if IsEvent(s, p) then s.decs + multiset{p} else s.decs)
    case Released(p) =>
      s.(hand := Empty, sinks := s.sinks + multiset{p}, consumed := s.consumed + 1, done := s.done + [p])
  }

  function ConsumerStep(s: State, e: Event): (t: State)
    ensures SameCalls(s, t)
  {
    match s.consumer
    case Waiting => if e.Wait? then s.(consumer := if e.signaled then Popping else TimedOut) else s
    case TimedOut => if e.ReadStop? then s.(consumer := if s.stopping then SawStop else Popping) else s
    case SawStop => if e.ReadPending? then s.(consumer := if s.pending == 0 then Exited else Popping) else s
    case Popping =>
      if e.Finish? then FinishHand(s)
      else if e.Pop? && s.lock.None? && s.hand.Empty? then
        (if s.list == [] then s.(consumer := Waiting) else PopHead(s))
      else s
    case _ => s
  }

  function StopStep(s: State, e: Event): (t: State)
    ensures SameCalls(s, t)
  {
    match s.stop
    case Before =>
      if e.StopFlag? then s.(stop := Flagged, stopping := true, joins := s.threadObject, threadObject := false)
      else s
    case Flagged =>
      if e.StopPoll? && s.producers == 0 then s.(stop := Waited)
      else if e.StopGiveUp? && s.producers != 0 then s.(stop := GaveUp)
      else s
    case Waited =>
      if !e.StopJoin? then s
      else if !s.joins then s.(stop := Draining)
      else if !e.joined then s.(stop := JoinFailed)
      else if s.consumer.Exited? then s.(stop := Draining)
      else s
    case Draining =>
      if e.Finish? then FinishHand(s)
      else if e.DrainPop? && s.lock.None? && s.hand.Empty? then
        (if s.list == [] then s.(stop := Done(s.pending == 0)) else PopHead(s))
      else s
    case _ => s
  }

  /** ShEventThreadStart, one startLock section. */
  function StartStep(s: State): (t: State)
    ensures SameCalls(s, t)
  {
    if s.stopping || s.threadObject then s else s.(threadObject := true, consumer := Waiting)
  }

  function Next(s: State, e: Event): (t: State)
    ensures !e.Post? ==> SameCalls(s, t)
  {
    match e
    case Post(p, step) => PostStep(s, p, step)
    case Start => StartStep(s)
    case StopFlag => StopStep(s, e)
    case StopPoll => StopStep(s, e)
    case StopGiveUp => StopStep(s, e)
    case StopJoin(_) => StopStep(s, e)
    case DrainPop => StopStep(s, e)
    case Finish => if s.stop.Draining? then StopStep(s, e) else ConsumerStep(s, e)
    case _ => ConsumerStep(s, e)
  }

  function Exec(s: State, es: seq<Event>): State {
    if |es| == 0 then s else Next(Exec(s, es[..|es| - 1]), es[|es| - 1])
  }

  // ---- the invariant ----

  /** What a position says about the call. */
  datatype Mark =
    | IsCounted | IsChecked | IsLinked | InLock
    | HasDropped | HasOverflowed | HasPosted | HasDecremented | HasSunk

  predicate Marked(at: At, m: Mark) {
    match m
    case IsCounted => at.Inside? || at.Checked? || at.Leaving?
    case IsChecked => at.Checked?
    case IsLinked => (at.Leaving? && at.linked) || at.Posting? || at.Posted?
    case InLock => at.Gate? || at.Checked?
    case HasDropped => at.DropOver? || at.Dropped?
    case HasOverflowed => at.Dropped? && at.over
    case HasPosted => at.Posted?
    case HasDecremented => at.DropSink? || at.DropTally? || at.DropOver? || at.Dropped?
    case HasSunk => at.DropTally? || at.DropOver? || at.Dropped?
  }

  predicate Is(s: State, p: PostId, m: Mark) { p in s.calls && Marked(s.calls[p].at, m) }

  function CallsAt(calls: map<PostId, Call>, m: Mark): set<PostId> {
    set p | p in calls && Marked(calls[p].at, m)
  }

  function HandSeq(h: Hand): seq<PostId> { if h.Empty? then [] else [h.id] }

  /** What the queue holds for one call: the lock, its node's places, its effects. */
  datatype Share = Share(call: Option<Call>, locks: bool, gated: bool,
                         links: nat, releasing: bool, dones: nat, decs: nat, sinks: nat)

  ghost function ShareOf(s: State, p: PostId): Share {
    Share(if p in s.calls then Some(s.calls[p]) else None, s.lock == Some(p), Gated(s.stop),
          multiset(s.linked)[p], s.hand == Released(p), multiset(s.done)[p], s.decs[p], s.sinks[p])
  }

  ghost predicate ShareOk(h: Share) {
    match h.call
    case None => !h.locks && h.links == 0 && h.decs == 0 && h.sinks == h.dones
    case Some(Call(kind, at)) =>
      && (at.DropSink? ==> kind.Event?)
      && (h.locks <==> Marked(at, InLock))
      && (h.gated ==> !at.Checked?)
      && h.links == One(Marked(at, IsLinked))
      && (kind.Event? ==> h.decs == One(Marked(at, HasDecremented)) + One(h.releasing) + h.dones)
      && (kind.Record? ==> h.decs == 0)
      && h.sinks == One(kind.Event? && Marked(at, HasSunk)) + h.dones
  }

  ghost predicate CallOk(s: State, p: PostId) { ShareOk(ShareOf(s, p)) }

  ghost predicate CountersOk(s: State) {
    && s.producers == |CallsAt(s.calls, IsCounted)|
    && s.dropped == |CallsAt(s.calls, HasDropped)|
    && s.overflowDropped == |CallsAt(s.calls, HasOverflowed)|
    && s.posted == |CallsAt(s.calls, HasPosted)|
    && s.consumed == |s.done|
  }

  ghost predicate ListOk(s: State) {
    && s.linked == s.done + HandSeq(s.hand) + s.list
    && s.pending == |s.list|
    && (s.capacity > 0 ==> s.pending <= s.capacity)
  }

  /** Stop has read the producer count as zero. */
  predicate Gated(stop: Stop) { stop.Waited? || stop.Draining? || stop.JoinFailed? || stop.Done? }

  /** Nobody but Stop itself can take nodes any more. */
  predicate Joined(stop: Stop) { stop.Draining? || stop.Done? }

  ghost predicate ThreadOk(s: State) {
    && (s.stopping <==> !s.stop.Before?)
    && (s.consumer.NoThread? <==> !s.threadObject && !s.joins)
    && (s.joins ==> s.stopping) && (s.threadObject ==> !s.stopping)
    && (!s.hand.Empty? ==> s.consumer.Popping? || s.stop.Draining?)
    && (s.consumer.SawStop? || s.consumer.Exited? ==> s.stopping)
    && (Joined(s.stop) ==> s.consumer.NoThread? || s.consumer.Exited?)
    && (s.stop.Done? ==> s.stop.ok && s.list == [] && s.hand.Empty?)
  }

  ghost predicate Inv(s: State) {
    (forall p :: CallOk(s, p)) && CountersOk(s) && ListOk(s) && ThreadOk(s)
  }

  // ---- every step keeps it ----

  lemma CountAfterMove(calls: map<PostId, Call>, p: PostId, c: Call, m: Mark)
    ensures |CallsAt(calls[p := c], m)| + One(p in calls && Marked(calls[p].at, m))
         == |CallsAt(calls, m)| + One(Marked(c.at, m))
  {
    var was, now := CallsAt(calls, m), CallsAt(calls[p := c], m);
    var rest := was - {p};
    assert forall x :: x in now - {p} <==> x in rest;
    assert now - {p} == rest;
    SizeWithout(was, p);
    SizeWithout(now, p);
  }

  lemma SizeWithout(ids: set<PostId>, p: PostId)
    ensures |ids| == |ids - {p}| + One(p in ids)
  {
    assert ids == (ids - {p}) + (if p in ids then {p} else {});
  }

  /** The counters moved by what p's own change of position is worth. */
  ghost predicate Accounted(s: State, p: PostId, t: State) {
    && p in t.calls && t.calls == s.calls[p := t.calls[p]]
    && var at := t.calls[p].at;
    && t.producers == s.producers - One(Is(s, p, IsCounted)) + One(Marked(at, IsCounted))
    && t.dropped == s.dropped - One(Is(s, p, HasDropped)) + One(Marked(at, HasDropped))
    && t.overflowDropped == s.overflowDropped - One(Is(s, p, HasOverflowed)) + One(Marked(at, HasOverflowed))
    && t.posted == s.posted - One(Is(s, p, HasPosted)) + One(Marked(at, HasPosted))
    && t.consumed == s.consumed && t.done == s.done
  }

  lemma AccountedKeepsCounters(s: State, p: PostId, t: State)
    requires CountersOk(s) && Accounted(s, p, t)
    ensures CountersOk(t)
  {
    CountAfterMove(s.calls, p, t.calls[p], IsCounted);
    CountAfterMove(s.calls, p, t.calls[p], HasDropped);
    CountAfterMove(s.calls, p, t.calls[p], HasOverflowed);
    CountAfterMove(s.calls, p, t.calls[p], HasPosted);
  }

  /** A step of call p leaves everything of the other calls, the consumer and Stop alone. */
  ghost predicate OnlyMoves(s: State, p: PostId, t: State) {
    && p in t.calls && t.calls == s.calls[p := t.calls[p]]
    && t.capacity == s.capacity && t.hand == s.hand && t.done == s.done && t.stopping == s.stopping
    && t.stop == s.stop && t.consumer == s.consumer && t.threadObject == s.threadObject && t.joins == s.joins
    && (t.lock == s.lock || ((s.lock.None? || s.lock.value == p) && (t.lock.None? || t.lock.value == p)))
    && (t.decs == s.decs || t.decs == s.decs + multiset{p})
    && (t.sinks == s.sinks || t.sinks == s.sinks + multiset{p})
    && ((t.list == s.list && t.pending == s.pending && t.linked == s.linked)
        || (Is(s, p, IsChecked) && !Full(s) && t.list == s.list + [p] && t.pending == s.pending + 1
            && t.linked == s.linked + [p]))
  }

  lemma OtherCallKept(s: State, p: PostId, t: State, x: PostId)
    requires CallOk(s, x) && x != p && OnlyMoves(s, p, t)
    ensures CallOk(t, x)
  {
    assert x in t.calls <==> x in s.calls;
    assert x in s.calls ==> t.calls[x] == s.calls[x];
    assert multiset(t.linked)[x] == multiset(s.linked)[x];
  }

  /** A linked node is in exactly one of: consumed, in hand, on the list. */
  lemma OnePlace(s: State, p: PostId)
    requires ListOk(s)
    ensures multiset(s.linked)[p] ==
            multiset(s.done)[p] + One(!s.hand.Empty? && s.hand.id == p) + multiset(s.list)[p]
  {
    assert s.hand.Empty? ==> HandSeq(s.hand) == [];
  }

  lemma NotLinked(s: State, p: PostId)
    requires CallOk(s, p) && ListOk(s) && !Is(s, p, IsLinked)
    ensures multiset(s.done)[p] == 0 && (s.hand.Empty? || s.hand.id != p) && p !in s.list
  {
    OnePlace(s, p);
  }

  predicate Full(s: State) { s.capacity > 0 && s.pending >= s.capacity }

  /** What p's step changes for p itself is what its change of position is worth. */
  ghost predicate OwnMove(s: State, p: PostId, t: State) {
    && p in s.calls && p in t.calls
    && var c, d := s.calls[p], t.calls[p];
    && d.kind == c.kind
    && (d.at.DropSink? ==> d.kind.Event?)
    && (Gated(t.stop) ==> !d.at.Checked?)
    && (t.lock == Some(p) <==> Marked(d.at, InLock))
    && multiset(t.linked)[p] + One(Marked(c.at, IsLinked)) == multiset(s.linked)[p] + One(Marked(d.at, IsLinked))
    && t.decs[p] ==
       s.decs[p] + (if d.kind.Event? then One(Marked(d.at, HasDecremented)) - One(Marked(c.at, HasDecremented)) else 0)
    && t.sinks[p] ==
       s.sinks[p] + One(d.kind.Event? && Marked(d.at, HasSunk)) - One(c.kind.Event? && Marked(c.at, HasSunk))
  }

  lemma OwnMoveKeepsCall(s: State, p: PostId, t: State)
    requires CallOk(s, p) && OwnMove(s, p, t) && t.stop == s.stop && t.hand == s.hand && t.done == s.done
    ensures CallOk(t, p)
  {
  }

  lemma MovesCount(s: State, p: PostId)
    requires p in s.calls && s.calls[p].at == Gate && s.lock == Some(p)
    ensures OnlyMoves(s, p, CountStep(s, p)) && OwnMove(s, p, CountStep(s, p))
    ensures Accounted(s, p, CountStep(s, p))
  {
  }

  lemma MovesNoMemory(s: State, p: PostId)
    requires p in s.calls && s.calls[p].at == Inside && s.lock != Some(p)
    ensures OnlyMoves(s, p, Move(s, p, Leaving(false, false))) && OwnMove(s, p, Move(s, p, Leaving(false, false)))
    ensures Accounted(s, p, Move(s, p, Leaving(false, false)))
  {
  }

  lemma MovesRecheck(s: State, p: PostId)
    requires p in s.calls && s.calls[p].at == Inside && s.lock.None?
    requires Gated(s.stop) ==> s.stopping
    ensures OnlyMoves(s, p, RecheckStep(s, p)) && OwnMove(s, p, RecheckStep(s, p))
  {
  }

  lemma AccountsRecheck(s: State, p: PostId)
    requires p in s.calls && s.calls[p].at == Inside && s.lock.None?
    requires Gated(s.stop) ==> s.stopping
    ensures Accounted(s, p, RecheckStep(s, p))
  {
  }

  lemma MovesAppend(s: State, p: PostId)
    requires p in s.calls && s.calls[p].at == Checked && s.lock == Some(p) && !Full(s)
    ensures OnlyMoves(s, p, AppendStep(s, p)) && OwnMove(s, p, AppendStep(s, p))
  {
    assert multiset(s.linked + [p])[p] == multiset(s.linked)[p] + 1;
  }

  lemma MovesLink(s: State, p: PostId)
    requires p in s.calls && s.calls[p].at == Checked && s.lock == Some(p)
    ensures OnlyMoves(s, p, LinkStep(s, p)) && OwnMove(s, p, LinkStep(s, p))
  {
    if !Full(s) { MovesAppend(s, p); }
  }

  lemma AccountsLink(s: State, p: PostId)
    requires p in s.calls && s.calls[p].at == Checked && s.lock == Some(p)
    ensures Accounted(s, p, LinkStep(s, p))
  {
    assert LinkStep(s, p).calls[p].at == (if Full(s) then Leaving(false, true) else Leaving(true, false));
  }

  lemma MovesLeave(s: State, p: PostId, linked: bool, over: bool)
    requires p in s.calls && s.calls[p].at == Leaving(linked, over) && s.lock != Some(p)
    ensures OnlyMoves(s, p, LeaveStep(s, p, linked, over)) && OwnMove(s, p, LeaveStep(s, p, linked, over))
    ensures Accounted(s, p, LeaveStep(s, p, linked, over))
  {
  }

  lemma MovesDropCounter(s: State, p: PostId, over: bool)
    requires p in s.calls && s.calls[p].at == Drop(over) && s.lock != Some(p)
    ensures OnlyMoves(s, p, DropCounter(s, p, over)) && OwnMove(s, p, DropCounter(s, p, over))
  {
    assert DropCounter(s, p, over).calls[p].at == (if s.calls[p].kind.Event? then DropSink(over) else DropTally(over));
  }

  lemma AccountsDropCounter(s: State, p: PostId, over: bool)
    requires p in s.calls && s.calls[p].at == Drop(over) && s.lock != Some(p)
    ensures Accounted(s, p, DropCounter(s, p, over))
  {
    assert DropCounter(s, p, over).calls[p].at == (if s.calls[p].kind.Event? then DropSink(over) else DropTally(over));
  }

  lemma MovesDropReference(s: State, p: PostId, over: bool)
    requires p in s.calls && s.calls[p].at == DropSink(over) && s.lock != Some(p) && s.calls[p].kind.Event?
    ensures OnlyMoves(s, p, DropReference(s, p, over)) && OwnMove(s, p, DropReference(s, p, over))
    ensures Accounted(s, p, DropReference(s, p, over))
  {
  }

  lemma MovesCountDrop(s: State, p: PostId, over: bool)
    requires p in s.calls && s.calls[p].at == DropTally(over) && s.lock != Some(p)
    ensures OnlyMoves(s, p, CountDrop(s, p, over)) && OwnMove(s, p, CountDrop(s, p, over))
    ensures Accounted(s, p, CountDrop(s, p, over))
  {
  }

  lemma MovesCountOverflow(s: State, p: PostId)
    requires p in s.calls && s.calls[p].at == DropOver && s.lock != Some(p)
    ensures OnlyMoves(s, p, CountOverflow(s, p)) && OwnMove(s, p, CountOverflow(s, p))
  {
    assert CountOverflow(s, p).calls[p].at == Dropped(!(s.calls[p].kind.Record? && s.stopping));
  }

  lemma AccountsCountOverflow(s: State, p: PostId)
    requires p in s.calls && s.calls[p].at == DropOver && s.lock != Some(p)
    ensures Accounted(s, p, CountOverflow(s, p))
  {
    assert CountOverflow(s, p).calls[p].at == Dropped(!(s.calls[p].kind.Record? && s.stopping));
  }

  lemma MovesCountPost(s: State, p: PostId)
    requires p in s.calls && s.calls[p].at == Posting && s.lock != Some(p)
    ensures OnlyMoves(s, p, CountPost(s, p)) && OwnMove(s, p, CountPost(s, p))
    ensures Accounted(s, p, CountPost(s, p))
  {
  }

  lemma Holds(s: State, p: PostId)
    requires CallOk(s, p)
    ensures Is(s, p, InLock) <==> s.lock == Some(p)
    ensures Is(s, p, IsChecked) ==> !Gated(s.stop)
    ensures p in s.calls && s.calls[p].at.DropSink? ==> s.calls[p].kind.Event?
  {
  }

  lemma HoldsLock(s: State, p: PostId)
    requires Inv(s) && p in s.calls
    ensures Marked(s.calls[p].at, InLock) <==> s.lock == Some(p)
    ensures s.calls[p].at.DropSink? ==> s.calls[p].kind.Event?
    ensures Gated(s.stop) ==> s.stopping
  {
    assert CallOk(s, p);
    Holds(s, p);
  }

  lemma MoveKeepsLists(s: State, p: PostId, t: State)
    requires ListOk(s) && ThreadOk(s) && CallOk(s, p) && OnlyMoves(s, p, t)
    ensures ListOk(t) && ThreadOk(t)
  {
    Holds(s, p);
    Regroup(s.done + HandSeq(s.hand), s.list, [p]);
  }

  lemma MoveKeepsInv(s: State, p: PostId, t: State)
    requires Inv(s) && OnlyMoves(s, p, t) && CallOk(t, p) && CountersOk(t)
    ensures Inv(t)
  {
    assert CallOk(s, p);
    MoveKeepsLists(s, p, t);
    forall x ensures CallOk(t, x) {
      assert CallOk(s, x);
      if x != p { OtherCallKept(s, p, t, x); }
    }
  }

  lemma OwnMoveKeepsInv(s: State, p: PostId, t: State)
    requires Inv(s) && OnlyMoves(s, p, t) && OwnMove(s, p, t) && Accounted(s, p, t)
    ensures Inv(t)
  {
    assert CallOk(s, p);
    OwnMoveKeepsCall(s, p, t);
    AccountedKeepsCounters(s, p, t);
    MoveKeepsInv(s, p, t);
  }

  lemma FreshShare(h: Share, k: Share, c: Call)
    requires ShareOk(h) && h.call.None? && h.dones == 0 && !h.releasing
    requires c.at == Gate || c.at == Drop(false)
    requires k == h.(call := Some(c), locks := c.at.Gate?)
    ensures ShareOk(k)
  {
    assert k.call == Some(Call(c.kind, c.at));
  }

  lemma EnterIsClean(s: State, p: PostId, kind: Kind)
    requires CallOk(s, p) && ListOk(s) && p !in s.calls && s.lock.None?
    ensures CallOk(EnterStep(s, p, kind), p)
  {
    NotLinked(s, p);
    var t := EnterStep(s, p, kind);
    assert t.calls[p] == Call(kind, if s.stopping then Drop(false) else Gate);
    FreshShare(ShareOf(s, p), ShareOf(t, p), t.calls[p]);
  }

  lemma MovesEnter(s: State, p: PostId, kind: Kind)
    requires p !in s.calls && s.lock.None?
    ensures OnlyMoves(s, p, EnterStep(s, p, kind))
  {
  }

  lemma AccountsEnter(s: State, p: PostId, kind: Kind)
    requires p !in s.calls && s.lock.None?
    ensures Accounted(s, p, EnterStep(s, p, kind))
  {
  }

  lemma EnterKeepsInv(s: State, p: PostId, kind: Kind)
    requires Inv(s)
    ensures Inv(EnterStep(s, p, kind))
  {
    var t := EnterStep(s, p, kind);
    if t != s {
      assert CallOk(s, p);
      EnterIsClean(s, p, kind);
      MovesEnter(s, p, kind);
      AccountsEnter(s, p, kind);
      AccountedKeepsCounters(s, p, t);
      MoveKeepsInv(s, p, t);
    }
  }

  lemma CountKeepsInv(s: State, p: PostId)
    requires Inv(s) && p in s.calls && s.calls[p].at == Gate
    ensures Inv(CountStep(s, p))
  {
    HoldsLock(s, p);
    MovesCount(s, p);
    OwnMoveKeepsInv(s, p, CountStep(s, p));
  }

  lemma NoMemoryKeepsInv(s: State, p: PostId)
    requires Inv(s) && p in s.calls && s.calls[p].at == Inside
    ensures Inv(Move(s, p, Leaving(false, false)))
  {
    HoldsLock(s, p);
    MovesNoMemory(s, p);
    OwnMoveKeepsInv(s, p, Move(s, p, Leaving(false, false)));
  }

  lemma RecheckKeepsInv(s: State, p: PostId)
    requires Inv(s) && p in s.calls && s.calls[p].at == Inside && s.lock.None?
    ensures Inv(RecheckStep(s, p))
  {
    HoldsLock(s, p);
    MovesRecheck(s, p);
    AccountsRecheck(s, p);
    OwnMoveKeepsInv(s, p, RecheckStep(s, p));
  }

  lemma LinkKeepsInv(s: State, p: PostId)
    requires Inv(s) && p in s.calls && s.calls[p].at == Checked
    ensures Inv(LinkStep(s, p))
  {
    HoldsLock(s, p);
    MovesLink(s, p);
    AccountsLink(s, p);
    OwnMoveKeepsInv(s, p, LinkStep(s, p));
  }

  lemma LeaveKeepsInv(s: State, p: PostId, linked: bool, over: bool)
    requires Inv(s) && p in s.calls && s.calls[p].at == Leaving(linked, over)
    ensures Inv(LeaveStep(s, p, linked, over))
  {
    HoldsLock(s, p);
    MovesLeave(s, p, linked, over);
    OwnMoveKeepsInv(s, p, LeaveStep(s, p, linked, over));
  }

  lemma DropCounterKeepsInv(s: State, p: PostId, over: bool)
    requires Inv(s) && p in s.calls && s.calls[p].at == Drop(over)
    ensures Inv(DropCounter(s, p, over))
  {
    HoldsLock(s, p);
    MovesDropCounter(s, p, over);
    AccountsDropCounter(s, p, over);
    OwnMoveKeepsInv(s, p, DropCounter(s, p, over));
  }

  lemma DropReferenceKeepsInv(s: State, p: PostId, over: bool)
    requires Inv(s) && p in s.calls && s.calls[p].at == DropSink(over)
    ensures Inv(DropReference(s, p, over))
  {
    HoldsLock(s, p);
    MovesDropReference(s, p, over);
    OwnMoveKeepsInv(s, p, DropReference(s, p, over));
  }

  lemma CountDropKeepsInv(s: State, p: PostId, over: bool)
    requires Inv(s) && p in s.calls && s.calls[p].at == DropTally(over)
    ensures Inv(CountDrop(s, p, over))
  {
    HoldsLock(s, p);
    MovesCountDrop(s, p, over);
    OwnMoveKeepsInv(s, p, CountDrop(s, p, over));
  }

  lemma CountOverflowKeepsInv(s: State, p: PostId)
    requires Inv(s) && p in s.calls && s.calls[p].at == DropOver
    ensures Inv(CountOverflow(s, p))
  {
    HoldsLock(s, p);
    MovesCountOverflow(s, p);
    AccountsCountOverflow(s, p);
    OwnMoveKeepsInv(s, p, CountOverflow(s, p));
  }

  lemma CountPostKeepsInv(s: State, p: PostId)
    requires Inv(s) && p in s.calls && s.calls[p].at == Posting
    ensures Inv(CountPost(s, p))
  {
    HoldsLock(s, p);
    MovesCountPost(s, p);
    OwnMoveKeepsInv(s, p, CountPost(s, p));
  }

  lemma DropKeepsInv(s: State, p: PostId)
    requires Inv(s) && p in s.calls
    requires s.calls[p].at.Drop? || s.calls[p].at.DropSink? || s.calls[p].at.DropTally?
    ensures Inv(SettleStep(s, p))
  {
    match s.calls[p].at
    case Drop(over) => DropCounterKeepsInv(s, p, over);
    case DropSink(over) => DropReferenceKeepsInv(s, p, over);
    case DropTally(over) => CountDropKeepsInv(s, p, over);
  }

  lemma SettleKeepsInv(s: State, p: PostId)
    requires Inv(s) && p in s.calls
    ensures Inv(SettleStep(s, p))
  {
    var at := s.calls[p].at;
    if at.Drop? || at.DropSink? || at.DropTally? {
      DropKeepsInv(s, p);
    } else if at.DropOver? {
      CountOverflowKeepsInv(s, p);
    } else if at.Posting? {
      CountPostKeepsInv(s, p);
    }
  }

  lemma PostKeepsInv(s: State, p: PostId, e: Step)
    requires Inv(s)
    ensures Inv(PostStep(s, p, e))
  {
    if e.Enter? {
      EnterKeepsInv(s, p, e.kind);
    } else if p in s.calls {
      match s.calls[p].at
      case Gate => CountKeepsInv(s, p);
      case Inside =>
        if e.NoMemory? { NoMemoryKeepsInv(s, p); } else if s.lock.None? { RecheckKeepsInv(s, p); }
      case Checked => LinkKeepsInv(s, p);
      case Leaving(linked, over) => LeaveKeepsInv(s, p, linked, over);
      case _ => SettleKeepsInv(s, p);
    }
  }

  // ---- consumer, start and stop ----

  /** Everything the bookkeeping of a call reads is the same. */
  ghost predicate SameShares(s: State, t: State) {
    && t.calls == s.calls && t.lock == s.lock && (Gated(t.stop) <==> Gated(s.stop))
    && t.linked == s.linked && t.done == s.done && t.decs == s.decs && t.sinks == s.sinks
    && (t.hand == s.hand || (!s.hand.Released? && !t.hand.Released?))
    && t.producers == s.producers && t.dropped == s.dropped && t.overflowDropped == s.overflowDropped
    && t.posted == s.posted && t.consumed == s.consumed
  }

  lemma SameSharesKeepCalls(s: State, t: State)
    requires Inv(s) && SameShares(s, t)
    ensures CountersOk(t) && forall x :: CallOk(t, x)
  {
    forall x ensures CallOk(t, x) {
      assert CallOk(s, x);
      assert ShareOf(t, x) == ShareOf(s, x);
    }
  }

  lemma PopKeepsInv(s: State)
    requires Inv(s) && s.list != [] && s.hand.Empty? && !s.stop.Done?
    requires s.consumer.Popping? || s.stop.Draining?
    ensures Inv(PopHead(s))
  {
    var t := PopHead(s);
    SameSharesKeepCalls(s, t);
    assert s.list == [s.list[0]] + t.list;
    assert s.done + [] + s.list == s.done + [s.list[0]] + t.list;
  }

  lemma ShareConsumed(h: Share)
    requires ShareOk(h) && h.call.Some?
    ensures !h.releasing ==>
              ShareOk(h.(releasing := true, decs := h.decs + One(h.call.value.kind.Event?)))
    ensures h.releasing ==> ShareOk(h.(releasing := false, dones := h.dones + 1, sinks := h.sinks + 1))
  {
  }

  lemma CounterKeepsCall(s: State, p: PostId, x: PostId)
    requires CallOk(s, x) && s.hand == Taken(p) && p in s.calls
    ensures CallOk(FinishHand(s), x)
  {
    var t, h := FinishHand(s), ShareOf(s, x);
    if x == p { ShareConsumed(h); }
    assert ShareOf(t, x) == (if x != p then h else h.(releasing := true, decs := h.decs + One(IsEvent(s, p))));
  }

  lemma ReleaseKeepsCall(s: State, p: PostId, x: PostId)
    requires CallOk(s, x) && s.hand == Released(p) && p in s.calls
    ensures CallOk(FinishHand(s), x)
  {
    var t, h := FinishHand(s), ShareOf(s, x);
    assert multiset(s.done + [p])[x] == multiset(s.done)[x] + One(x == p);
    if x == p { ShareConsumed(h); }
    assert ShareOf(t, x) ==
      (if x != p then h else h.(releasing := false, dones := h.dones + 1, sinks := h.sinks + 1));
  }

  lemma FinishKeepsCall(s: State, x: PostId)
    requires CallOk(s, x) && (!s.hand.Empty? ==> s.hand.id in s.calls)
    ensures CallOk(FinishHand(s), x)
  {
    match s.hand
    case Empty =>
    case Taken(p) => CounterKeepsCall(s, p, x);
    case Released(p) => ReleaseKeepsCall(s, p, x);
  }

  lemma HandIsACall(s: State)
    requires Inv(s) && !s.hand.Empty?
    ensures s.hand.id in s.calls
  {
    assert CallOk(s, s.hand.id);
    OnePlace(s, s.hand.id);
  }

  lemma FinishKeepsInv(s: State)
    requires Inv(s) && !s.stop.Done?
    ensures Inv(FinishHand(s))
  {
    if !s.hand.Empty? { HandIsACall(s); }
    forall x ensures CallOk(FinishHand(s), x) { assert CallOk(s, x); FinishKeepsCall(s, x); }
  }

  lemma ConsumerKeepsInv(s: State, e: Event)
    requires Inv(s) && !s.stop.Draining?
    ensures Inv(ConsumerStep(s, e))
  {
    var t := ConsumerStep(s, e);
    match s.consumer
    case Popping =>
      if e.Finish? {
        FinishKeepsInv(s);
      } else if e.Pop? && s.lock.None? && s.hand.Empty? && s.list != [] {
        PopKeepsInv(s);
      } else {
        SameSharesKeepCalls(s, t);
      }
    case _ => SameSharesKeepCalls(s, t);
  }

  /** With no producer counted nobody can be between the recheck and the link. */
  lemma NoneChecked(s: State, x: PostId)
    requires CountersOk(s) && s.producers == 0
    ensures !Is(s, x, IsChecked)
  {
    assert Is(s, x, IsChecked) ==> x in CallsAt(s.calls, IsCounted);
  }

  lemma PollKeepsInv(s: State)
    requires Inv(s) && s.stop.Flagged? && s.producers == 0
    ensures Inv(s.(stop := Waited))
  {
    var t := s.(stop := Waited);
    forall x ensures CallOk(t, x) {
      assert CallOk(s, x);
      NoneChecked(s, x);
      assert ShareOf(t, x) == ShareOf(s, x).(gated := true);
    }
  }

  lemma DrainKeepsInv(s: State, e: Event)
    requires Inv(s) && s.stop.Draining?
    ensures Inv(StopStep(s, e))
  {
    if e.Finish? {
      FinishKeepsInv(s);
    } else if e.DrainPop? && s.lock.None? && s.hand.Empty? && s.list != [] {
      PopKeepsInv(s);
    } else {
      SameSharesKeepCalls(s, StopStep(s, e));
    }
  }

  lemma StopKeepsInv(s: State, e: Event)
    requires Inv(s)
    ensures Inv(StopStep(s, e))
  {
    if s.stop.Draining? {
      DrainKeepsInv(s, e);
    } else if s.stop.Flagged? && e.StopPoll? && s.producers == 0 {
      PollKeepsInv(s);
    } else {
      SameSharesKeepCalls(s, StopStep(s, e));
    }
  }

  lemma ThreadsKeepInv(s: State, e: Event)
    requires Inv(s) && !e.Post? && !e.Start?
    ensures Inv(Next(s, e))
  {
    if e.Wait? || e.ReadStop? || e.ReadPending? || e.Pop? || (e.Finish? && !s.stop.Draining?) {
      if s.stop.Draining? {
        assert ConsumerStep(s, e) == s;
      } else {
        ConsumerKeepsInv(s, e);
      }
    } else {
      StopKeepsInv(s, e);
    }
  }

  lemma StartKeepsInv(s: State)
    requires Inv(s)
    ensures Inv(StartStep(s))
  {
    SameSharesKeepCalls(s, StartStep(s));
  }

  lemma NextKeepsInv(s: State, e: Event)
    requires Inv(s)
    ensures Inv(Next(s, e))
  {
    match e
    case Post(p, step) => PostKeepsInv(s, p, step);
    case Start => StartKeepsInv(s);
    case _ => ThreadsKeepInv(s, e);
  }

  lemma {:induction false} ExecKeepsInv(s: State, es: seq<Event>)
    requires Inv(s)
    ensures Inv(Exec(s, es))
  {
    if |es| > 0 {
      ExecKeepsInv(s, es[..|es| - 1]);
      NextKeepsInv(Exec(s, es[..|es| - 1]), es[|es| - 1]);
    }
  }

  lemma InitialInv(capacity: nat)
    ensures Inv(Initial(capacity))
  {
    var s := Initial(capacity);
    assert forall m :: CallsAt(s.calls, m) == {};
    forall p ensures CallOk(s, p) { }
  }

  // ---- what it gives, on every schedule ----

  /** The queue as everyone reaches it: initialised, then any interleaving. */
  ghost predicate Reachable(s: State) { exists capacity, es :: s == Exec(Initial(capacity), es) }

  lemma ReachableInv(s: State)
    requires Reachable(s)
    ensures Inv(s)
  {
    var capacity, es :| s == Exec(Initial(capacity), es);
    InitialInv(capacity);
    ExecKeepsInv(Initial(capacity), es);
  }

  /** Nodes leave in the order they were linked; the bound holds; overflows are drops. */
  lemma FifoWithinCapacity(s: State)
    requires Reachable(s)
    ensures s.linked == s.done + HandSeq(s.hand) + s.list
    ensures forall p :: multiset(s.linked)[p] <= 1
    ensures s.pending == |s.list| && (s.capacity > 0 ==> s.pending <= s.capacity)
    ensures s.overflowDropped <= s.dropped
  {
    ReachableInv(s);
    forall p ensures multiset(s.linked)[p] <= 1 { assert CallOk(s, p); }
    Contained(CallsAt(s.calls, HasOverflowed), CallsAt(s.calls, HasDropped));
  }

  lemma Contained(a: set<PostId>, b: set<PostId>)
    requires a <= b
    ensures |a| <= |b|
  {
    assert b == a + (b - a);
  }

  /** What a share means once its node is in at most one place. */
  lemma ShareEffects(h: Share)
    requires ShareOk(h) && h.call.Some? && h.dones + One(h.releasing) <= h.links
    ensures var c := h.call.value;
            && (c.kind.Record? ==> h.decs == 0)
            && h.decs <= 1 && h.sinks <= 1 && h.links <= 1
            && (c.at.Dropped? ==> h.links == 0 && h.sinks == One(c.kind.Event?))
            && (c.at.Posted? ==> h.links == 1)
            && (c.kind.Event? && (c.at.Dropped? || h.dones > 0) ==> h.decs == 1)
            && (h.dones > 0 ==> h.sinks == 1)
  {
  }

  /** An event's counter and reference are never released twice; both are once it is dropped or
      consumed. A record has no counter, and what was refused never reached the list. */
  lemma EffectsAtMostOnce(s: State, p: PostId)
    requires Reachable(s) && p in s.calls
    ensures var c := s.calls[p];
            && (c.kind.Record? ==> s.decs[p] == 0)
            && s.decs[p] <= 1 && s.sinks[p] <= 1
            && (c.kind.Event? && (c.at.Dropped? || p in s.done) ==> s.decs[p] == 1 && s.sinks[p] == 1)
            && (c.at.Dropped? ==> p !in s.linked)
            && (c.at.Posted? ==> multiset(s.linked)[p] == 1)
  {
    ReachableInv(s);
    assert CallOk(s, p);
    OnePlace(s, p);
    ShareEffects(ShareOf(s, p));
  }

  /** After a stop that succeeded, every finished event has had both effects exactly once. */
  lemma NothingLostAfterStop(s: State, p: PostId)
    requires Reachable(s) && s.stop.Done? && p in s.calls
    requires s.calls[p].at.Dropped? || s.calls[p].at.Posted?
    ensures s.calls[p].kind.Event? ==> s.decs[p] == 1 && s.sinks[p] == 1
    ensures s.calls[p].at.Posted? ==> multiset(s.done)[p] == 1
  {
    ReachableInv(s);
    EffectsAtMostOnce(s, p);
    OnePlace(s, p);
  }

  lemma SameElements(nodes: seq<PostId>, ids: set<PostId>)
    requires forall p :: multiset(nodes)[p] == One(p in ids)
    ensures |nodes| == |ids|
  {
    assert multiset(nodes) == multiset(ids);
    assert |multiset(nodes)| == |nodes|;
  }

  lemma CallsPartition(calls: map<PostId, Call>)
    requires forall p :: p in calls ==> calls[p].at.Posted? || calls[p].at.Dropped?
    ensures CallsAt(calls, IsCounted) == {}
    ensures |calls| == |CallsAt(calls, HasPosted)| + |CallsAt(calls, HasDropped)|
    ensures CallsAt(calls, IsLinked) == CallsAt(calls, HasPosted)
  {
    var posted, dropped := CallsAt(calls, HasPosted), CallsAt(calls, HasDropped);
    assert calls.Keys == posted + dropped && posted !! dropped;
    assert |calls| == |calls.Keys|;
  }

  /** When no call is in progress every one is accounted for, and every node is somewhere. */
  lemma QuietConservation(s: State)
    requires Reachable(s)
    requires forall p :: p in s.calls ==> s.calls[p].at.Posted? || s.calls[p].at.Dropped?
    ensures s.producers == 0 && |s.calls| == s.posted + s.dropped
    ensures s.posted == s.consumed + |HandSeq(s.hand)| + s.pending
  {
    ReachableInv(s);
    CallsPartition(s.calls);
    LinkedMatches(s);
    SameElements(s.linked, CallsAt(s.calls, IsLinked));
  }

  lemma LinkedMatches(s: State)
    requires forall p :: CallOk(s, p)
    ensures forall p :: multiset(s.linked)[p] == One(p in CallsAt(s.calls, IsLinked))
  {
    forall p ensures multiset(s.linked)[p] == One(p in CallsAt(s.calls, IsLinked)) { assert CallOk(s, p); }
  }

  lemma PostLeavesDone(s: State, p: PostId, e: Step)
    ensures PostStep(s, p, e).done == s.done
  {
  }

  // ---- stopping ----

  lemma GatedPost(s: State, p: PostId, e: Step)
    requires CallOk(s, p) && Gated(s.stop)
    ensures SameRest(s, PostStep(s, p, e))
  {
    Holds(s, p);
  }

  lemma GatedThreads(s: State, e: Event)
    requires ThreadOk(s) && Gated(s.stop) && !e.Post?
    ensures Gated(Next(s, e).stop) && Next(s, e).linked == s.linked
    ensures s.stop.Done? ==> Next(s, e) == s
  {
  }

  lemma GatedStays(s: State, e: Event)
    requires Inv(s) && Gated(s.stop)
    ensures Gated(Next(s, e).stop) && Next(s, e).linked == s.linked
    ensures s.stop.Done? ==> SameRest(s, Next(s, e))
  {
    if e.Post? {
      assert CallOk(s, e.p);
      GatedPost(s, e.p, e.step);
    } else {
      GatedThreads(s, e);
    }
  }

  /** Once Stop has read the producer count as zero, no node is ever linked again. */
  lemma {:induction false} NoLinkOnceGated(s: State, es: seq<Event>)
    requires Inv(s) && Gated(s.stop)
    ensures Gated(Exec(s, es).stop) && Exec(s, es).linked == s.linked
    ensures s.stop.Done? ==> SameRest(s, Exec(s, es))
  {
    if |es| > 0 {
      var t := Exec(s, es[..|es| - 1]);
      NoLinkOnceGated(s, es[..|es| - 1]);
      ExecKeepsInv(s, es[..|es| - 1]);
      GatedStays(t, es[|es| - 1]);
    }
  }

  /** A first Stop that reaches its drain returns success, with no consumer and an empty list;
      whatever runs afterwards (producers, another start), it stays that way. */
  lemma StopIsFinal(s: State, es: seq<Event>)
    requires Reachable(s) && s.stop.Done?
    ensures s.stop.ok && s.list == [] && s.pending == 0 && s.done == s.linked
    ensures s.consumer.NoThread? || s.consumer.Exited?
    ensures SameRest(s, Exec(s, es))
  {
    ReachableInv(s);
    NoLinkOnceGated(s, es);
  }

  // ---- when a posted node is linked ----

  /** A call past its recheck links its node if and only if the queue is unbounded or has room; on a
      full queue it drops its own node and leaves the list alone. */
  lemma LinkAppendsIff(s: State, p: PostId)
    requires Inv(s) && p in s.calls && s.calls[p].at.Checked?
    ensures var t := Next(s, Post(p, Link));
      if s.capacity == 0 || |s.list| < s.capacity then
        && t.list == s.list + [p] && t.linked == s.linked + [p] && t.calls[p].at == Leaving(true, false)
      else
        && t.list == s.list && t.linked == s.linked && t.calls[p].at == Leaving(false, true)
  {
    assert Next(s, Post(p, Link)) == LinkStep(s, p);
  }

  /** A call on its way to report an overflow, or that has. */
  predicate Overflowed(at: At) {
    match at
    case Leaving(linked, over) => over
    case Drop(over) => over
    case DropSink(over) => over
    case DropTally(over) => over
    case DropOver => true
    case Dropped(over) => over
    case _ => false
  }

  /** In the sections only a link on a full queue overflows. */
  lemma SectionOverflows(s: State, p: PostId)
    requires p in s.calls
    ensures !Overflowed(CountStep(s, p).calls[p].at) && !Overflowed(RecheckStep(s, p).calls[p].at)
    ensures Overflowed(LinkStep(s, p).calls[p].at) ==> Full(s)
  {
  }

  lemma LeaveOverflows(s: State, p: PostId, linked: bool, over: bool)
    requires p in s.calls
    ensures Overflowed(LeaveStep(s, p, linked, over).calls[p].at) ==> over
  {
  }

  lemma GateOverflows(s: State, p: PostId, e: Step)
    requires p in s.calls && s.calls[p].at.Gate? && !e.Enter?
    ensures !Overflowed(PostStep(s, p, e).calls[p].at)
  {
    if e.Count? { SectionOverflows(s, p); }
  }

  lemma InsideOverflows(s: State, p: PostId, e: Step)
    requires p in s.calls && s.calls[p].at.Inside? && !e.Enter?
    ensures !Overflowed(PostStep(s, p, e).calls[p].at)
  {
    if e.Recheck? && s.lock.None? { SectionOverflows(s, p); }
  }

  lemma LeavingOverflows(s: State, p: PostId, e: Step)
    requires p in s.calls && s.calls[p].at.Leaving? && !e.Enter?
    ensures Overflowed(PostStep(s, p, e).calls[p].at) ==> s.calls[p].at.over
  {
    if e.Leave? { LeaveOverflows(s, p, s.calls[p].at.linked, s.calls[p].at.over); }
  }

  lemma OtherOverflows(s: State, p: PostId, e: Step)
    requires p in s.calls && !e.Enter?
    requires !s.calls[p].at.Gate? && !s.calls[p].at.Inside? && !s.calls[p].at.Checked? && !s.calls[p].at.Leaving?
    ensures Overflowed(PostStep(s, p, e).calls[p].at) ==> Overflowed(s.calls[p].at)
  {
    if e.Settle? && Overflowed(SettleStep(s, p).calls[p].at) { SettleOverflows(s, p); }
  }

  lemma EnterOverflows(s: State, p: PostId, kind: Kind)
    requires p in EnterStep(s, p, kind).calls && Overflowed(EnterStep(s, p, kind).calls[p].at)
    ensures p in s.calls && Overflowed(s.calls[p].at)
  {
  }

  lemma OverflowStep(s: State, p: PostId, e: Step)
    requires p in PostStep(s, p, e).calls && Overflowed(PostStep(s, p, e).calls[p].at)
    ensures p in s.calls
    ensures Overflowed(s.calls[p].at) || (e.Link? && s.calls[p].at.Checked? && Full(s))
  {
    if e.Enter? {
      EnterOverflows(s, p, e.kind);
    } else if s.calls[p].at.Gate? {
      GateOverflows(s, p, e);
    } else if s.calls[p].at.Inside? {
      InsideOverflows(s, p, e);
    } else if s.calls[p].at.Checked? {
      CheckedMoves(s, p, e);
      SectionOverflows(s, p);
      assert PostStep(s, p, e) == s || e.Link?;
    } else if s.calls[p].at.Leaving? {
      LeavingOverflows(s, p, e);
    } else {
      OtherOverflows(s, p, e);
    }
  }

  lemma SettleOverflows(s: State, p: PostId)
    requires p in s.calls && Overflowed(SettleStep(s, p).calls[p].at)
    ensures Overflowed(s.calls[p].at)
  {
    match s.calls[p].at
    case Drop(_) =>
    case DropSink(_) =>
    case DropTally(_) =>
    case _ =>
  }

  /** On every schedule a call that overflows met, at its link, a list as long as the capacity. */
  lemma {:induction false} OverflowMetFull(capacity: nat, es: seq<Event>, p: PostId) returns (i: nat)
    requires var s := Exec(Initial(capacity), es);
      p in s.calls && Overflowed(s.calls[p].at)
    ensures i < |es| && es[i] == Post(p, Link)
    ensures var u := Exec(Initial(capacity), es[..i]);
      p in u.calls && u.calls[p].at.Checked? && u.capacity > 0 && |u.list| == u.capacity
  {
    var before, e := es[..|es| - 1], es[|es| - 1];
    var s := Exec(Initial(capacity), before);
    InitialInv(capacity);
    ExecKeepsInv(Initial(capacity), before);
    if e.Post? && e.p == p { OverflowStep(s, p, e.step); } else if e.Post? { OthersStay(s, e.p, e.step, p); }
    if p in s.calls && Overflowed(s.calls[p].at) {
      i := OverflowMetFull(capacity, before, p);
      assert es[..i] == before[..i];
    } else {
      i := |before|;
    }
  }

  /** Once the stop flag is set the record path, which rereads it, no longer counts an overflow. */
  lemma OverflowCountedIff(s: State, p: PostId)
    requires p in s.calls && s.calls[p].at.DropOver?
    ensures Next(s, Post(p, Settle)).overflowDropped ==
      if s.stopping && s.calls[p].kind.Record? then s.overflowDropped else s.overflowDropped + 1
  {
  }

  // ---- one call run alone ----

  /** The queue with call p at this place. */
  function Placed(s: State, p: PostId, kind: Kind, at: At): State { s.(calls := s.calls[p := Call(kind, at)]) }

  lemma MovePlaced(s: State, p: PostId, kind: Kind, from: At, to: At)
    ensures Move(Placed(s, p, kind, from), p, to) == Placed(s, p, kind, to)
  {
    assert s.calls[p := Call(kind, from)][p := Call(kind, to)] == s.calls[p := Call(kind, to)];
  }

  lemma Three(s: State, e: Event, f: Event, g: Event)
    ensures Exec(s, [e, f, g]) == Next(Next(Next(s, e), f), g)
  {
    Then(s, [], e);
    Then(s, [e], f);
    Then(s, [e, f], g);
    assert [] + [e] == [e] && [e] + [f] == [e, f] && [e, f] + [g] == [e, f, g];
  }

  lemma AloneToInside(s: State, p: PostId, kind: Kind)
    requires p !in s.calls && s.lock.None? && !s.stopping
    ensures Next(Next(s, Post(p, Enter(kind))), Post(p, Count)) ==
      Placed(s, p, kind, Inside).(producers := s.producers + 1)
  {
    var s1 := Placed(s, p, kind, Gate).(lock := Some(p));
    assert Next(s, Post(p, Enter(kind))) == s1;
    MovePlaced(s, p, kind, Gate, Inside);
  }

  lemma AloneRecheck(s: State, p: PostId, kind: Kind)
    requires p !in s.calls && s.lock.None? && !s.stopping
    ensures Next(Placed(s, p, kind, Inside).(producers := s.producers + 1), Post(p, Recheck)) ==
      Placed(s, p, kind, Checked).(producers := s.producers + 1, lock := Some(p))
  {
    var u := Placed(s, p, kind, Inside).(producers := s.producers + 1);
    MovePlaced(s, p, kind, Inside, Checked);
    assert Next(u, Post(p, Recheck)) == RecheckStep(u, p);
  }

  /** Registered, with memory, and back in the lock. */
  lemma AloneToChecked(s: State, p: PostId, kind: Kind)
    requires p !in s.calls && s.lock.None? && !s.stopping
    ensures Exec(s, [Post(p, Enter(kind)), Post(p, Count), Post(p, Recheck)]) ==
      Placed(s, p, kind, Checked).(producers := s.producers + 1, lock := Some(p))
  {
    Three(s, Post(p, Enter(kind)), Post(p, Count), Post(p, Recheck));
    AloneToInside(s, p, kind);
    AloneRecheck(s, p, kind);
  }

  lemma {:induction false} ExecAppend(s: State, a: seq<Event>, b: seq<Event>)
    ensures Exec(s, a + b) == Exec(Exec(s, a), b)
  {
    if |b| == 0 {
      assert a + b == a;
    } else {
      ExecAppend(s, a, b[..|b| - 1]);
      assert (a + b)[..|a + b| - 1] == a + b[..|b| - 1];
    }
  }

  /** Four settling steps; a call that has returned makes none. */
  function Settling(p: PostId): seq<Event> { [Post(p, Settle), Post(p, Settle), Post(p, Settle)] + [Post(p, Settle)] }

  lemma FourSettles(s: State, p: PostId, s1: State, s2: State, s3: State, s4: State)
    requires s1 == Next(s, Post(p, Settle)) && s2 == Next(s1, Post(p, Settle))
    requires s3 == Next(s2, Post(p, Settle)) && s4 == Next(s3, Post(p, Settle))
    ensures Exec(s, Settling(p)) == s4
  {
    var three := [Post(p, Settle), Post(p, Settle), Post(p, Settle)];
    Three(s, Post(p, Settle), Post(p, Settle), Post(p, Settle));
    Then(s, three, Post(p, Settle));
  }

  lemma SettlePosting(s: State, p: PostId, kind: Kind)
    ensures Next(Placed(s, p, kind, Posting), Post(p, Settle)) == Placed(s, p, kind, Posted).(posted := s.posted + 1)
    ensures Next(Placed(s, p, kind, Posted), Post(p, Settle)) == Placed(s, p, kind, Posted)
  {
    MovePlaced(s, p, kind, Posting, Posted);
  }

  lemma SettlesPosting(s: State, p: PostId, kind: Kind)
    ensures Exec(Placed(s, p, kind, Posting), Settling(p)) == Placed(s, p, kind, Posted).(posted := s.posted + 1)
  {
    var t := s.(posted := s.posted + 1);
    SettlePosting(s, p, kind);
    SettlePosting(t, p, kind);
    var done := Placed(t, p, kind, Posted);
    assert done == Placed(s, p, kind, Posted).(posted := s.posted + 1);
    FourSettles(Placed(s, p, kind, Posting), p, done, done, done, done);
  }

  lemma SettleDropEvent(s: State, p: PostId, over: bool)
    ensures Next(Placed(s, p, Kind.Event, Drop(over)), Post(p, Settle)) ==
      Placed(s, p, Kind.Event, DropSink(over)).(decs := s.decs + multiset{p})
    ensures Next(Placed(s, p, Kind.Event, DropSink(over)), Post(p, Settle)) ==
      Placed(s, p, Kind.Event, DropTally(over)).(sinks := s.sinks + multiset{p})
  {
    MovePlaced(s, p, Kind.Event, Drop(over), DropSink(over));
    MovePlaced(s, p, Kind.Event, DropSink(over), DropTally(over));
  }

  lemma SettleDropRecord(s: State, p: PostId, over: bool)
    ensures Next(Placed(s, p, Kind.Record, Drop(over)), Post(p, Settle)) == Placed(s, p, Kind.Record, DropTally(over))
  {
    MovePlaced(s, p, Kind.Record, Drop(over), DropTally(over));
  }

  lemma SettleTally(s: State, p: PostId, kind: Kind, over: bool)
    ensures Next(Placed(s, p, kind, DropTally(over)), Post(p, Settle)) ==
      Placed(s, p, kind, if over then DropOver else Dropped(false)).(dropped := s.dropped + 1)
  {
    MovePlaced(s, p, kind, DropTally(over), if over then DropOver else Dropped(false));
  }

  lemma SettleOver(s: State, p: PostId, kind: Kind)
    requires !s.stopping
    ensures Next(Placed(s, p, kind, DropOver), Post(p, Settle)) ==
      Placed(s, p, kind, Dropped(true)).(overflowDropped := s.overflowDropped + 1)
  {
    MovePlaced(s, p, kind, DropOver, Dropped(true));
  }

  lemma SettleDropped(s: State, p: PostId, kind: Kind, over: bool)
    ensures Next(Placed(s, p, kind, Dropped(over)), Post(p, Settle)) == Placed(s, p, kind, Dropped(over))
  {
  }

  /** The state in which a dropped call has returned: its effects balanced, its drop counted. */
  function AfterDrop(s: State, kind: Kind, p: PostId, over: bool): State {
    s.(dropped := s.dropped + 1, overflowDropped := s.overflowDropped + One(over),
       decs := if kind.Event? then s.decs + multiset{p} else s.decs,
       sinks := if kind.Event? then s.sinks + multiset{p} else s.sinks)
  }

  lemma SettlesDropEvent(s: State, p: PostId, over: bool)
    requires over ==> !s.stopping
    ensures Exec(Placed(s, p, Kind.Event, Drop(over)), Settling(p)) ==
      Placed(AfterDrop(s, Kind.Event, p, over), p, Kind.Event, Dropped(over))
  {
    var c := s.(decs := s.decs + multiset{p});
    var e := c.(sinks := s.sinks + multiset{p});
    var d := e.(dropped := s.dropped + 1);
    SettleDropEvent(s, p, over);
    SettleDropEvent(c, p, over);
    SettleTally(e, p, Kind.Event, over);
    if over { SettleOver(d, p, Kind.Event); } else { SettleDropped(d, p, Kind.Event, false); }
    FourSettles(Placed(s, p, Kind.Event, Drop(over)), p, Placed(c, p, Kind.Event, DropSink(over)),
                Placed(e, p, Kind.Event, DropTally(over)),
                Placed(d, p, Kind.Event, if over then DropOver else Dropped(false)),
                Placed(AfterDrop(s, Kind.Event, p, over), p, Kind.Event, Dropped(over)));
  }

  lemma SettlesDropRecord(s: State, p: PostId, over: bool)
    requires over ==> !s.stopping
    ensures Exec(Placed(s, p, Kind.Record, Drop(over)), Settling(p)) ==
      Placed(AfterDrop(s, Kind.Record, p, over), p, Kind.Record, Dropped(over))
  {
    var d := s.(dropped := s.dropped + 1);
    var last := Placed(AfterDrop(s, Kind.Record, p, over), p, Kind.Record, Dropped(over));
    SettleDropRecord(s, p, over);
    SettleTally(s, p, Kind.Record, over);
    if over { SettleOver(d, p, Kind.Record); } else { SettleDropped(d, p, Kind.Record, false); }
    SettleDropped(AfterDrop(s, Kind.Record, p, over), p, Kind.Record, over);
    FourSettles(Placed(s, p, Kind.Record, Drop(over)), p, Placed(s, p, Kind.Record, DropTally(over)),
                Placed(d, p, Kind.Record, if over then DropOver else Dropped(false)), last, last);
  }

  lemma SettlesDrop(s: State, p: PostId, kind: Kind, over: bool)
    requires over ==> !s.stopping
    ensures Exec(Placed(s, p, kind, Drop(over)), Settling(p)) ==
      Placed(AfterDrop(s, kind, p, over), p, kind, Dropped(over))
  {
    if kind.Event? { SettlesDropEvent(s, p, over); } else { SettlesDropRecord(s, p, over); }
  }

  /** All steps of one call, with memory for its node or without. */
  function WholeCall(p: PostId, kind: Kind, memory: bool): seq<Event> {
    [Post(p, Enter(kind)), Post(p, Count), Post(p, if memory then Recheck else NoMemory)]
    + ([Post(p, Link), Post(p, Leave)] + Settling(p))
  }

  lemma LinkAlone(s: State, p: PostId, kind: Kind)
    requires s.pending == |s.list|
    ensures var u := Next(Placed(s, p, kind, Checked).(producers := s.producers + 1, lock := Some(p)), Post(p, Link));
      u == if s.capacity == 0 || |s.list| < s.capacity then
             Placed(s, p, kind, Leaving(true, false)).(producers := s.producers + 1, list := s.list + [p],
               pending := s.pending + 1, lock := None, linked := s.linked + [p])
           else Placed(s, p, kind, Leaving(false, true)).(producers := s.producers + 1, lock := None)
  {
    var c := Placed(s, p, kind, Checked).(producers := s.producers + 1, lock := Some(p));
    MovePlaced(s, p, kind, Checked, Leaving(true, false));
    MovePlaced(s, p, kind, Checked, Leaving(false, true));
    assert Next(c, Post(p, Link)) == LinkStep(c, p);
  }

  lemma LeaveAlone(s: State, p: PostId, kind: Kind, linked: bool, over: bool)
    ensures Next(Placed(s, p, kind, Leaving(linked, over)).(producers := s.producers + 1), Post(p, Leave)) ==
      Placed(s, p, kind, if linked then Posting else Drop(over))
  {
    MovePlaced(s, p, kind, Leaving(linked, over), if linked then Posting else Drop(over));
  }

  lemma TwoMore(s: State, e: Event, f: Event, rest: seq<Event>)
    ensures Exec(s, [e, f] + rest) == Exec(Next(Next(s, e), f), rest)
  {
    Then(s, [], e);
    Then(s, [e], f);
    assert [] + [e] == [e] && [e] + [f] == [e, f];
    ExecAppend(s, [e, f], rest);
  }

  function RoomLinked(s: State, p: PostId): State {
    s.(list := s.list + [p], pending := s.pending + 1, linked := s.linked + [p])
  }

  lemma RoomTail(s: State, p: PostId, kind: Kind)
    requires s.pending == |s.list| && (s.capacity == 0 || |s.list| < s.capacity)
    ensures Exec(Placed(s, p, kind, Checked).(producers := s.producers + 1, lock := Some(p)),
                 [Post(p, Link), Post(p, Leave)] + Settling(p)) ==
      Placed(RoomLinked(s, p), p, kind, Posted).(lock := None, posted := s.posted + 1)
  {
    var l := RoomLinked(s, p).(lock := None);
    var c := Placed(s, p, kind, Checked).(producers := s.producers + 1, lock := Some(p));
    TwoMore(c, Post(p, Link), Post(p, Leave), Settling(p));
    LinkAlone(s, p, kind);
    assert Next(c, Post(p, Link)) == Placed(l, p, kind, Leaving(true, false)).(producers := l.producers + 1);
    LeaveAlone(l, p, kind, true, false);
    SettlesPosting(l, p, kind);
  }

  lemma FullTail(s: State, p: PostId, kind: Kind)
    requires s.pending == |s.list| && !(s.capacity == 0 || |s.list| < s.capacity) && !s.stopping
    ensures Exec(Placed(s, p, kind, Checked).(producers := s.producers + 1, lock := Some(p)),
                 [Post(p, Link), Post(p, Leave)] + Settling(p)) ==
      Placed(AfterDrop(s, kind, p, true), p, kind, Dropped(true)).(lock := None)
  {
    var l := s.(lock := None);
    var c := Placed(s, p, kind, Checked).(producers := s.producers + 1, lock := Some(p));
    TwoMore(c, Post(p, Link), Post(p, Leave), Settling(p));
    LinkAlone(s, p, kind);
    assert Next(c, Post(p, Link)) == Placed(l, p, kind, Leaving(false, true)).(producers := l.producers + 1);
    LeaveAlone(l, p, kind, false, true);
    SettlesDrop(l, p, kind, true);
  }

  /** One call run alone while the queue is not stopping, from any state of the queue with its lock
      free and with memory for its node: it returns TRUE with its node at the end of the list if and
      only if there is room; on a full queue it returns FALSE, counted as a drop and an overflow. */
  lemma PostAlone(s: State, p: PostId, kind: Kind)
    requires Inv(s) && p !in s.calls && s.lock.None? && !s.stopping
    ensures Exec(s, WholeCall(p, kind, true)) ==
      if s.capacity == 0 || |s.list| < s.capacity then
        Placed(RoomLinked(s, p), p, kind, Posted).(posted := s.posted + 1)
      else Placed(AfterDrop(s, kind, p, true), p, kind, Dropped(true))
  {
    ExecAppend(s, [Post(p, Enter(kind)), Post(p, Count), Post(p, Recheck)],
               [Post(p, Link), Post(p, Leave)] + Settling(p));
    AloneToChecked(s, p, kind);
    if s.capacity == 0 || |s.list| < s.capacity { RoomTail(s, p, kind); } else { FullTail(s, p, kind); }
  }

  /** Without memory it returns FALSE, counted as a drop only, whatever the room. */
  lemma PostWithoutMemory(s: State, p: PostId, kind: Kind)
    requires p !in s.calls && s.lock.None? && !s.stopping
    ensures Exec(s, WholeCall(p, kind, false)) == Placed(AfterDrop(s, kind, p, false), p, kind, Dropped(false))
  {
    var first := [Post(p, Enter(kind)), Post(p, Count), Post(p, NoMemory)];
    ExecAppend(s, first, [Post(p, Link), Post(p, Leave)] + Settling(p));
    Three(s, Post(p, Enter(kind)), Post(p, Count), Post(p, NoMemory));
    AloneToInside(s, p, kind);
    MovePlaced(s, p, kind, Inside, Leaving(false, false));
    var c := Placed(s, p, kind, Leaving(false, false)).(producers := s.producers + 1);
    assert Next(Placed(s, p, kind, Inside).(producers := s.producers + 1), Post(p, NoMemory)) == c;
    TwoMore(c, Post(p, Link), Post(p, Leave), Settling(p));
    assert Next(c, Post(p, Link)) == c;
    LeaveAlone(s, p, kind, false, false);
    SettlesDrop(s, p, kind, false);
  }

  /** And once the stop flag is set it returns FALSE without ever being registered. */
  lemma PostAfterFlag(s: State, p: PostId, kind: Kind)
    requires p !in s.calls && s.lock.None? && s.stopping
    ensures Exec(s, [Post(p, Enter(kind))] + Settling(p)) ==
      Placed(AfterDrop(s, kind, p, false), p, kind, Dropped(false))
  {
    Then(s, [], Post(p, Enter(kind)));
    assert [] + [Post(p, Enter(kind))] == [Post(p, Enter(kind))];
    ExecAppend(s, [Post(p, Enter(kind))], Settling(p));
    assert Next(s, Post(p, Enter(kind))) == Placed(s, p, kind, Drop(false));
    SettlesDrop(s, p, kind, false);
  }

  // ---- the join ends ----

  /** The consumer's next step when it runs alone; its next `rings` waits find the doorbell set. */
  function Own(s: State, rings: nat): Event {
    match s.consumer
    case Waiting => Wait(rings > 0)
    case TimedOut => ReadStop
    case SawStop => ReadPending
    case _ => if s.hand.Empty? then Pop else Finish
  }

  function Alone(s: State, rings: nat, n: nat): State
    decreases n
  {
    if n == 0 then s
    else Alone(Next(s, Own(s, rings)), if s.consumer.Waiting? && rings > 0 then rings - 1 else rings, n - 1)
  }

  /** From the pops: a node takes three steps, a doorbell still set two, the exit itself three. */
  function PopsLeft(s: State, rings: nat): nat {
    4 + 3 * |s.list| + 2 * rings + (if s.hand.Taken? then 2 else if s.hand.Released? then 1 else 0)
  }

  function StepsLeft(s: State, rings: nat): nat {
    match s.consumer
    case Waiting =>
      if rings > 0 then PopsLeft(s, rings - 1) + 1 else if s.list == [] then 3 else PopsLeft(s, 0) + 3
    case TimedOut => if s.list == [] then 2 else PopsLeft(s, rings) + 2
    case SawStop => if s.list == [] then 1 else PopsLeft(s, rings) + 1
    case Popping => PopsLeft(s, rings)
    case _ => 0
  }

  lemma OwnStepCounts(s: State, rings: nat)
    requires ListOk(s) && ThreadOk(s) && s.stopping && s.lock.None? && !s.stop.Draining?
    requires !s.consumer.NoThread? && !s.consumer.Exited?
    ensures var t := Next(s, Own(s, rings));
      var left := if s.consumer.Waiting? && rings > 0 then rings - 1 else rings;
      && t.stopping && t.lock.None? && t.stop == s.stop && !t.consumer.NoThread?
      && StepsLeft(t, left) == StepsLeft(s, rings) - 1
  {
  }

  /** Once the flag is set and no producer is in the lock, the consumer left to run consumes what is
      listed and exits, in a number of steps known beforehand: the join is not waiting for ever. */
  lemma {:induction false} ConsumerExits(s: State, rings: nat)
    requires Inv(s) && s.stopping && s.lock.None? && !s.consumer.NoThread?
    ensures Alone(s, rings, StepsLeft(s, rings)).consumer.Exited?
    decreases StepsLeft(s, rings)
  {
    if !s.consumer.Exited? {
      assert !s.stop.Draining?;
      OwnStepCounts(s, rings);
      NextKeepsInv(s, Own(s, rings));
      ConsumerExits(Next(s, Own(s, rings)), if s.consumer.Waiting? && rings > 0 then rings - 1 else rings);
    }
  }

  // ---- a link after the flag ----

  /** Nobody can link any more: the flag is set, and whoever passed its recheck finds the queue full. */
  ghost predicate Shut(s: State) { s.stopping && forall p :: Is(s, p, IsChecked) ==> Full(s) }

  lemma CheckedMoves(s: State, p: PostId, e: Step)
    requires p in s.calls && s.calls[p].at.Checked?
    ensures PostStep(s, p, e) == s || PostStep(s, p, e) == LinkStep(s, p)
  {
  }

  /** x is where it was. */
  predicate SameCall(s: State, t: State, x: PostId) {
    && (x in t.calls <==> x in s.calls)
    && (x in s.calls ==> t.calls[x] == s.calls[x])
  }

  lemma DropStays(s: State, p: PostId, x: PostId)
    requires x != p && p in s.calls
    ensures s.calls[p].at.Drop? ==> SameCall(s, SettleStep(s, p), x)
    ensures s.calls[p].at.DropSink? ==> SameCall(s, SettleStep(s, p), x)
    ensures s.calls[p].at.DropTally? ==> SameCall(s, SettleStep(s, p), x)
  {
  }

  lemma SettleStays(s: State, p: PostId, x: PostId)
    requires x != p && p in s.calls
    ensures SameCall(s, SettleStep(s, p), x)
  {
    match s.calls[p].at
    case DropOver =>
    case Posting =>
    case _ => DropStays(s, p, x);
  }

  lemma SectionStays(s: State, p: PostId, x: PostId)
    requires x != p && p in s.calls
    ensures SameCall(s, CountStep(s, p), x) && SameCall(s, RecheckStep(s, p), x) && SameCall(s, LinkStep(s, p), x)
  {
  }

  lemma OthersStay(s: State, p: PostId, e: Step, x: PostId)
    requires x != p
    ensures SameCall(s, PostStep(s, p, e), x)
  {
    if p in s.calls && !e.Enter? {
      SettleStays(s, p, x);
      SectionStays(s, p, x);
    }
  }

  lemma RecheckPassesNone(s: State, p: PostId)
    requires p in s.calls && s.stopping
    ensures !Is(RecheckStep(s, p), p, IsChecked)
  {
  }

  lemma DropPassesNone(s: State, p: PostId)
    requires p in s.calls && (s.calls[p].at.Drop? || s.calls[p].at.DropSink? || s.calls[p].at.DropTally?)
    ensures !Is(SettleStep(s, p), p, IsChecked)
  {
  }

  lemma SettlePassesNone(s: State, p: PostId)
    requires p in s.calls && !s.calls[p].at.Checked?
    ensures !Is(SettleStep(s, p), p, IsChecked)
  {
    var at := s.calls[p].at;
    if at.Drop? || at.DropSink? || at.DropTally? { DropPassesNone(s, p); }
  }

  /** Only a recheck passes a call, and with the flag set it passes none. */
  lemma NobodyPasses(s: State, p: PostId, e: Step, x: PostId)
    requires s.stopping && Is(PostStep(s, p, e), x, IsChecked)
    ensures Is(s, x, IsChecked)
  {
    if x != p {
      OthersStay(s, p, e, x);
    } else if p in s.calls && !e.Enter? {
      match s.calls[p].at
      case Gate =>
      case Inside => RecheckPassesNone(s, p);
      case Checked =>
      case Leaving(_, _) =>
      case _ => SettlePassesNone(s, p);
    }
  }

  lemma ShutPost(s: State, p: PostId, e: Step)
    requires Shut(s)
    ensures SameRest(s, PostStep(s, p, e)) && Shut(PostStep(s, p, e))
  {
    var t := PostStep(s, p, e);
    if Is(s, p, IsChecked) { CheckedMoves(s, p, e); }
    forall x | Is(t, x, IsChecked) ensures Full(t) { NobodyPasses(s, p, e, x); }
  }

  /** A call past its recheck holds the lock, so nobody pops or passes beside it. */
  lemma CheckedHoldsLock(s: State, x: PostId)
    requires Inv(s) && Is(s, x, IsChecked)
    ensures s.lock == Some(x)
  {
    HoldsLock(s, x);
  }

  lemma ShutStays(s: State, e: Event)
    requires Inv(s) && Shut(s)
    ensures Next(s, e).linked == s.linked && Shut(Next(s, e))
  {
    if e.Post? {
      ShutPost(s, e.p, e.step);
    } else {
      var t := Next(s, e);
      forall x | Is(t, x, IsChecked) ensures Full(t) {
        assert Is(s, x, IsChecked);
        CheckedHoldsLock(s, x);
      }
    }
  }

  lemma {:induction false} ShutForever(s: State, es: seq<Event>)
    requires Inv(s) && Shut(s)
    ensures Exec(s, es).linked == s.linked && Shut(Exec(s, es))
  {
    if |es| > 0 {
      ShutForever(s, es[..|es| - 1]);
      ExecKeepsInv(s, es[..|es| - 1]);
      ShutStays(Exec(s, es[..|es| - 1]), es[|es| - 1]);
    }
  }

  lemma RoomLinks(s: State, p: PostId)
    requires Is(s, p, IsChecked) && !Full(s)
    ensures Exec(s, [Post(p, Link)]).linked != s.linked
  {
    var es := [Post(p, Link)];
    assert es[..0] == [];
    assert Exec(s, es) == PostStep(s, p, Link);
    assert PostStep(s, p, Link) == LinkStep(s, p);
    assert |LinkStep(s, p).linked| == |s.linked| + 1;
  }

  /** Once the flag is set, a node can still be linked if and only if a call is past its recheck,
      in the lock, and finds room: when the flag and the recheck are ordered the comment's way. */
  lemma LinkAfterFlagIff(s: State)
    requires Inv(s) && s.stopping
    ensures (exists es :: Exec(s, es).linked != s.linked) <==> exists p :: Is(s, p, IsChecked) && !Full(s)
  {
    if Shut(s) {
      forall es ensures Exec(s, es).linked == s.linked { ShutForever(s, es); }
    } else {
      var p :| Is(s, p, IsChecked) && !Full(s);
      RoomLinks(s, p);
    }
  }

  /** What a run from s may have linked: nothing yet, or the one call that was past its recheck. */
  ghost predicate AtMostOneLink(s: State, u: State) {
    || (u.stopping && u.linked == s.linked && forall x :: Is(u, x, IsChecked) ==> Is(s, x, IsChecked))
    || (Shut(u) && exists p :: Is(s, p, IsChecked) && u.linked == s.linked + [p])
  }

  lemma LinkShuts(s: State, p: PostId)
    requires Inv(s) && s.stopping && Is(s, p, IsChecked)
    ensures Shut(LinkStep(s, p))
  {
    var t := LinkStep(s, p);
    assert !t.calls[p].at.Checked? && t.stopping;
    forall x ensures !Is(t, x, IsChecked) {
      if x != p && Is(s, x, IsChecked) {
        CheckedHoldsLock(s, x);
        CheckedHoldsLock(s, p);
        assert false;
      }
    }
  }

  lemma OneLinkStep(s: State, u: State, e: Event)
    requires Inv(u) && AtMostOneLink(s, u)
    ensures AtMostOneLink(s, Next(u, e))
  {
    if Shut(u) && u.linked != s.linked {
      ShutStays(u, e);
    } else if e.Post? {
      if Is(u, e.p, IsChecked) {
        CheckedMoves(u, e.p, e.step);
        LinkShuts(u, e.p);
      }
      forall x | Is(Next(u, e), x, IsChecked) ensures Is(u, x, IsChecked) { NobodyPasses(u, e.p, e.step, x); }
    }
  }

  /** And it is one node at most, that of the call which held the lock when the flag was set. */
  lemma {:induction false} OneLinkAfterFlag(s: State, es: seq<Event>)
    requires Inv(s) && s.stopping
    ensures AtMostOneLink(s, Exec(s, es))
  {
    if |es| > 0 {
      OneLinkAfterFlag(s, es[..|es| - 1]);
      ExecKeepsInv(s, es[..|es| - 1]);
      OneLinkStep(s, Exec(s, es[..|es| - 1]), es[|es| - 1]);
    }
  }

  lemma Then(s: State, es: seq<Event>, e: Event)
    ensures Exec(s, es + [e]) == Next(Exec(s, es), e)
  {
    assert (es + [e])[..|es|] == es;
  }

  /** Every field of a run of one call, on an unbounded queue, that nobody dropped. */
  function OneCall(list: seq<PostId>, lock: Option<PostId>, producers: int, at: At, consumer: Consumer, hand: Hand,
                   stop: Stop, posted: nat, decs: multiset<PostId>, done: seq<PostId>): State
  {
    QueueState(list, |list|, 0, lock, !stop.Before?, producers, map[1 := Call(Kind.Event, at)], consumer, hand,
               stop.Before?, !stop.Before?, stop, posted, |done|, 0, 0, decs, multiset(done),
               done + HandSeq(hand) + list, done)
  }

  lemma Also(es: seq<Event>, s: State, e: Event) returns (fs: seq<Event>, t: State)
    requires s == Exec(Initial(0), es)
    ensures fs == es + [e] && t == Next(s, e) && t == Exec(Initial(0), fs)
  {
    fs, t := es + [e], Next(s, e);
    Then(Initial(0), es, e);
  }

  lemma PassRecheck() returns (es: seq<Event>, s: State)
    ensures s == Exec(Initial(0), es)
    ensures s == OneCall([], Some(1), 1, Checked, Waiting, Empty, Before, 0, multiset{}, [])
  {
    es, s := [], Initial(0);
    es, s := Also(es, s, Start);
    es, s := Also(es, s, Post(1, Enter(Kind.Event)));
    assert s == OneCall([], Some(1), 0, Gate, Waiting, Empty, Before, 0, multiset{}, []);
    es, s := Also(es, s, Post(1, Count));
    assert s == OneCall([], None, 1, Inside, Waiting, Empty, Before, 0, multiset{}, []);
    es, s := Also(es, s, Post(1, Recheck));
  }

  lemma ExitEarly() returns (es: seq<Event>, s: State)
    ensures s == Exec(Initial(0), es)
    ensures s == OneCall([1], None, 1, Leaving(true, false), Exited, Empty, Flagged, 0, multiset{}, [])
  {
    es, s := PassRecheck();
    es, s := Also(es, s, StopFlag);
    es, s := Also(es, s, Wait(false));
    es, s := Also(es, s, ReadStop);
    es, s := Also(es, s, ReadPending);
    assert s == OneCall([], Some(1), 1, Checked, Exited, Empty, Flagged, 0, multiset{}, []);
    es, s := Also(es, s, Post(1, Link));
  }

  lemma WaitAfter(es: seq<Event>, s: State) returns (fs: seq<Event>, t: State)
    requires s == Exec(Initial(0), es)
    requires s == OneCall([1], None, 1, Leaving(true, false), Exited, Empty, Flagged, 0, multiset{}, [])
    ensures t == Exec(Initial(0), fs)
    ensures t == OneCall([1], None, 0, Posting, Exited, Empty, Waited, 0, multiset{}, [])
  {
    fs, t := Also(es, s, Post(1, Leave));
    assert t == OneCall([1], None, 0, Posting, Exited, Empty, Flagged, 0, multiset{}, []);
    fs, t := Also(fs, t, StopPoll);
  }

  lemma DrainAfter(es: seq<Event>, s: State) returns (fs: seq<Event>, t: State)
    requires s == Exec(Initial(0), es)
    requires s == OneCall([1], None, 0, Posting, Exited, Empty, Waited, 0, multiset{}, [])
    ensures t == Exec(Initial(0), fs)
    ensures t == OneCall([], None, 0, Posting, Exited, Taken(1), Draining, 0, multiset{}, [])
  {
    fs, t := Also(es, s, StopJoin(true));
    assert t == OneCall([1], None, 0, Posting, Exited, Empty, Draining, 0, multiset{}, []);
    fs, t := Also(fs, t, DrainPop);
  }

  lemma ConsumeAfter(es: seq<Event>, s: State) returns (fs: seq<Event>, t: State)
    requires s == Exec(Initial(0), es)
    requires s == OneCall([], None, 0, Posting, Exited, Taken(1), Draining, 0, multiset{}, [])
    ensures t == Exec(Initial(0), fs)
    ensures t == OneCall([], None, 0, Posting, Exited, Empty, Done(true), 0, multiset{1}, [1])
  {
    fs, t := Also(es, s, Finish);
    assert t == OneCall([], None, 0, Posting, Exited, Released(1), Draining, 0, multiset{1}, []);
    fs, t := Also(fs, t, Finish);
    assert t == OneCall([], None, 0, Posting, Exited, Empty, Draining, 0, multiset{1}, [1]);
    fs, t := Also(fs, t, DrainPop);
  }

  /** The stop flag is set without the queue lock: a consumer can read it and an empty queue while
      a producer that passed its recheck has yet to link. The final drain takes that node. */
  lemma ConsumerMayLeaveANode() returns (s: State, t: State)
    ensures Reachable(s) && s.consumer.Exited? && s.list == [1]
    ensures Reachable(t) && t.stop == Done(true) && t.done == [1] && t.sinks[1] == 1
  {
    var es, fs;
    es, s := ExitEarly();
    fs, t := WaitAfter(es, s);
    fs, t := DrainAfter(fs, t);
    fs, t := ConsumeAfter(fs, t);
  }
}
