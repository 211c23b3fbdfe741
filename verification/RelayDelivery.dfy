/** What the relay delivers. Every connection's queue is given the global order
    of broadcasts, read through the subscriptions each broadcast found, and its
    socket takes that sequence in order. */
module RelayDelivery {
  import opened Text
  import opened RelayRules
  import opened Relay
  import opened RelayLocks

  // ----- what a broadcast owes -----

  function LiveFor(subs: seq<Sub>, e: Event, at: nat): seq<Frame> {
    if subs == [] then []
    else (if Matches(subs[0].1, e) then [Live(subs[0].0, e, at)] else []) + LiveFor(subs[1..], e, at)
  }

  function SubsIn(b: Broadcast, i: nat): seq<Sub> { if i < |b.subs| then b.subs[i] else [] }

  /** The frames one connection is owed for all broadcasts so far. */
  function Owed(log: seq<Broadcast>, i: nat): seq<Frame> {
    if log == [] then []
    else
      var n := |log| - 1;
      Owed(log[..n], i) + LiveFor(SubsIn(log[n], i), log[n].event, n)
  }

  /** The part of a broadcast still to be walked that concerns one connection. */
  function TodoFor(todo: seq<Target>, i: nat, e: Event, at: nat): seq<Frame> {
    if todo == [] then []
    else
      (if todo[0].conn == i && Matches(todo[0].filter, e) then [Live(todo[0].sub, e, at)] else [])
      + TodoFor(todo[1..], i, e, at)
  }

  datatype Round = Round(at: nat, e: Event, todo: seq<Target>)

  function RoundAt(pc: Pc): Option<Round> {
    match pc
    case Casting(at, e, todo) => Some(Round(at, e, todo))
    case Waiting(Push(at, e, todo)) => Some(Round(at, e, todo))
    case Inside(Push(at, e, todo)) => Some(Round(at, e, todo))
    case _ => None
  }

  /** The broadcast under way: its thread has the subscriptions. */
  function RoundOf(s: State): Option<Round> {
    if SubsLock in s.owner && s.owner[SubsLock].Conn? && s.owner[SubsLock].id < |s.conns|
    then RoundAt(s.conns[s.owner[SubsLock].id].pc)
    else None
  }

  function Pending(s: State, i: nat): seq<Frame> {
    match RoundOf(s)
    case Some(r) => TodoFor(r.todo, i, r.e, r.at)
    case None => []
  }

  // ----- the invariant -----

  predicate TargetsStand(todo: seq<Target>, conns: seq<Connection>) {
    forall t <- todo :: t.conn < |conns| && (t.sub, t.filter) in conns[t.conn].subs
  }

  predicate RoundStands(s: State, r: Round) {
    && r.at + 1 == |s.log| && s.log[r.at].event == r.e && TargetsStand(r.todo, s.conns)
  }

  predicate CastStands(pc: Pc) {
    match pc
    case Waiting(Push(_, e, todo)) => todo != [] && Matches(todo[0].filter, e)
    case Inside(Push(_, e, todo)) => todo != [] && Matches(todo[0].filter, e)
    case _ => true
  }

  predicate Starting(pc: Pc) { pc.Accepting? || pc == Waiting(Register) || pc == Inside(Register) }

  predicate Leaving(pc: Pc) {
    pc in {Waiting(LeaveSubs), Inside(LeaveSubs), Waiting(LeaveOut), Inside(LeaveOut), Gone}
  }

  predicate Left(pc: Pc) { pc in {Waiting(LeaveOut), Inside(LeaveOut), Gone} }

  /** Only a connection with a queue has subscriptions. */
  predicate Registers(k: Connection) {
    && (Starting(k.pc) || Left(k.pc) ==> k.subs == [])
    && (!k.registered ==> Starting(k.pc) || k.pc.Gone?)
    && (k.pc.Gone? || k.pc.Accepting? ==> !k.registered)
  }

  predicate NoLive(frames: seq<Frame>) { forall f <- frames :: !f.Live? }

  function LiveOf(frames: seq<Frame>): seq<Frame> {
    if frames == [] then []
    else
      var n := |frames| - 1;
      if frames[n].Live? then LiveOf(frames[..n]) + [frames[n]] else LiveOf(frames[..n])
  }

  /** The socket has taken the queue's frames in order, and all but those still
      in it while the connection stays. */
  predicate Fifo(k: Connection) {
    && (forall f <- k.queue :: f.Live?)
    && (k.pc.Sending? ==> NoLive(k.pc.frames)) && (k.pc.Unlocking? ==> NoLive(k.pc.frames))
    && LiveOf(k.wire) <= k.enqueued
    && (!Leaving(k.pc) ==> LiveOf(k.wire) + k.queue == k.enqueued)
  }

  predicate ConnStands(k: Connection) { Registers(k) && Fifo(k) && CastStands(k.pc) }

  predicate AllStand(conns: seq<Connection>) { forall i | 0 <= i < |conns| :: ConnStands(conns[i]) }

  predicate LogFits(log: seq<Broadcast>, n: nat) { forall b <- log :: |b.subs| <= n }

  predicate Even(s: State) {
    forall i | 0 <= i < |s.conns| :: s.conns[i].enqueued + Pending(s, i) == Owed(s.log, i)
  }

  ghost predicate Stands(s: State) {
    && Owned(s) && AllStand(s.conns) && LogFits(s.log, |s.conns|)
    && (RoundOf(s).Some? ==> RoundStands(s, RoundOf(s).value)) && Even(s)
  }

  // ----- steps that deliver nothing -----

  /** Nothing is broadcast or delivered; a round under way keeps its place and
      what it walks. */
  predicate Still(s: State, s': State) {
    && s'.log == s.log && |s.conns| <= |s'.conns| && RoundOf(s') == RoundOf(s)
    && (forall i | 0 <= i < |s.conns| :: s'.conns[i].enqueued == s.conns[i].enqueued)
    && (forall i | |s.conns| <= i < |s'.conns| :: s'.conns[i] == NEWCOMER)
    && (RoundOf(s).Some? ==> forall i | 0 <= i < |s.conns| :: s'.conns[i].subs == s.conns[i].subs)
  }

  lemma {:induction false} OwedNothing(log: seq<Broadcast>, n: nat, i: nat)
    requires LogFits(log, n) && n <= i
    ensures Owed(log, i) == []
  {
    if log != [] {
      assert log[|log| - 1] in log;
      OwedNothing(log[..|log| - 1], n, i);
    }
  }

  lemma {:induction false} TodoNothing(todo: seq<Target>, conns: seq<Connection>, i: nat, e: Event, at: nat)
    requires TargetsStand(todo, conns) && |conns| <= i
    ensures TodoFor(todo, i, e, at) == []
  {
    if todo != [] {
      assert todo[0] in todo;
      TodoNothing(todo[1..], conns, i, e, at);
    }
  }

  lemma StillKeeps(s: State, s': State)
    requires Stands(s) && Still(s, s')
    ensures Even(s') && LogFits(s'.log, |s'.conns|)
    ensures RoundOf(s').Some? ==> RoundStands(s', RoundOf(s').value)
  {
    forall i | 0 <= i < |s'.conns| ensures s'.conns[i].enqueued + Pending(s', i) == Owed(s'.log, i) {
      assert Pending(s', i) == Pending(s, i);
      if i >= |s.conns| {
        OwedNothing(s.log, |s.conns|, i);
        if RoundOf(s).Some? {
          TodoNothing(RoundOf(s).value.todo, s.conns, i, RoundOf(s).value.e, RoundOf(s).value.at);
        }
      }
    }
  }

  /** A thread without the subscriptions leaves the round alone. */
  lemma RoundUnmoved(s: State, s': State, id: nat)
    requires |s'.conns| >= |s.conns|
    requires SubsLock in s.owner <==> SubsLock in s'.owner
    requires SubsLock in s.owner ==> s'.owner[SubsLock] == s.owner[SubsLock] != Conn(id)
    requires forall i | 0 <= i < |s.conns| && i != id :: s'.conns[i].pc == s.conns[i].pc
    requires Owned(s)
    ensures RoundOf(s') == RoundOf(s)
  {
    if SubsLock in s.owner {
      var t := s.owner[SubsLock];
      assert Owns(s, t, SubsLock) && HoldsLock(s, t, SubsLock);
    }
  }

  lemma NotTheOwner(s: State, id: nat)
    requires Owned(s) && id < |s.conns| && !PcHolds(s.conns[id].pc, SubsLock)
    ensures SubsLock in s.owner ==> s.owner[SubsLock] != Conn(id)
  {
    assert !HoldsLock(s, Conn(id), SubsLock);
    assert !Owns(s, Conn(id), SubsLock);
  }

  lemma TheOwner(s: State, id: nat)
    requires Owned(s) && id < |s.conns| && PcHolds(s.conns[id].pc, SubsLock)
    ensures SubsLock in s.owner && s.owner[SubsLock] == Conn(id) && RoundOf(s) == RoundAt(s.conns[id].pc)
  {
    assert HoldsLock(s, Conn(id), SubsLock);
    assert Owns(s, Conn(id), SubsLock);
  }

  /** A step of one connection's own that leaves the subscriptions alone. */
  lemma OwnStep(s: State, s': State, id: nat, k: Connection)
    requires Stands(s) && id < |s.conns| && s'.conns == s.conns[id := k] && s'.log == s.log
    requires !PcHolds(s.conns[id].pc, SubsLock)
    requires SubsLock in s.owner <==> SubsLock in s'.owner
    requires SubsLock in s.owner ==> s'.owner[SubsLock] == s.owner[SubsLock]
    requires k.enqueued == s.conns[id].enqueued && k.subs == s.conns[id].subs && ConnStands(k)
    ensures Still(s, s') && AllStand(s'.conns)
  {
    NotTheOwner(s, id);
    RoundUnmoved(s, s', id);
  }

  /** A step of the thread that has the subscriptions, not for a broadcast. */
  lemma SubsStep(s: State, s': State, id: nat, k: Connection)
    requires Stands(s) && id < |s.conns| && s'.conns == s.conns[id := k] && s'.log == s.log
    requires PcHolds(s.conns[id].pc, SubsLock) && RoundAt(s.conns[id].pc).None?
    requires SubsLock !in s'.owner
    requires k.enqueued == s.conns[id].enqueued && ConnStands(k)
    ensures Still(s, s') && AllStand(s'.conns)
  {
    TheOwner(s, id);
  }

  // ----- one connection's steps keep it standing -----

  /** The step is this connection's own business. */
  predicate Own(s: State, s': State, id: nat) {
    && id < |s.conns| == |s'.conns| && s' == Put(s, id, s'.conns[id])
    && s'.conns[id].enqueued == s.conns[id].enqueued && s'.conns[id].subs == s.conns[id].subs
  }

  lemma LiveOfSnoc(frames: seq<Frame>, f: Frame)
    ensures LiveOf(frames + [f]) == if f.Live? then LiveOf(frames) + [f] else LiveOf(frames)
  {
    assert (frames + [f])[..|frames|] == frames;
  }

  lemma DrainStands(s: State, id: nat, ok: bool)
    requires id < |s.conns| && s.conns[id].pc.Draining? && ConnStands(s.conns[id])
    ensures ConnStands(Drained(s, id, ok).conns[id]) && Own(s, Drained(s, id, ok), id)
  {
    var k := s.conns[id];
    if k.queue != [] {
      LiveOfSnoc(k.wire, k.queue[0]);
      assert k.queue[0] in k.queue;
      assert k.queue == [k.queue[0]] + k.queue[1..];
      SeqAssociative(LiveOf(k.wire), [k.queue[0]], k.queue[1..]);
    }
  }

  lemma SendStands(s: State, id: nat, ok: bool)
    requires id < |s.conns| && s.conns[id].pc.Sending? && ConnStands(s.conns[id])
    ensures ConnStands(Sent(s, id, ok).conns[id]) && Own(s, Sent(s, id, ok), id)
  {
    var k := s.conns[id];
    if k.pc.frames != [] {
      assert k.pc.frames[0] in k.pc.frames;
      LiveOfSnoc(k.wire, k.pc.frames[0]);
    }
  }

  lemma MoveStands(k: Connection, pc: Pc)
    requires ConnStands(k) && k.pc.Reading?
    requires pc.Draining? || (pc.Sending? && NoLive(pc.frames))
             || (pc.Waiting? && !pc.r.Push? && !pc.r.Register? && !pc.r.LeaveOut?)
    ensures ConnStands(k.(pc := pc))
  {}

  lemma ByeStands(k: Connection)
    requires ConnStands(k) && k.pc.Reading?
    ensures ConnStands(k.(wire := k.wire + [Goodbye], pc := Waiting(LeaveSubs)))
  {
    LiveOfSnoc(k.wire, Goodbye);
  }

  lemma ReceiveOwn(s: State, id: nat, input: Input, now: nat)
    requires id < |s.conns|
    ensures Own(s, Received(s, id, input, now), id)
  {}

  lemma ReceiveStands(s: State, id: nat, input: Input, now: nat)
    requires id < |s.conns| && s.conns[id].pc.Reading? && ConnStands(s.conns[id])
    ensures ConnStands(Received(s, id, input, now).conns[id])
  {
    var k := s.conns[id];
    if input.Bye? {
      ByeStands(k);
    } else if input.Ask? && Passes(input.filter) {
      MoveStands(k, Waiting(Recall(input.sub, input.filter)));
    } else {
      MoveStands(k, Received(s, id, input, now).conns[id].pc);
    }
  }

  lemma {:induction false} ReplayHasNoLive(sub: string, events: seq<Event>)
    ensures forall f <- Replay(sub, events) :: f.Replayed? && f.sub == sub
  {
    if events != [] {
      ReplayHasNoLive(sub, events[1..]);
    }
  }

  lemma {:induction false} OtherSubsOf(subs: seq<Sub>, sub: string)
    ensures forall x :: x in OtherSubs(subs, sub) <==> x in subs && x.0 != sub
  {
    if subs != [] {
      OtherSubsOf(subs[1..], sub);
    }
  }

  /** A region that neither broadcasts nor delivers. */
  lemma RegionFrame(c: Config, s: State, id: nat, r: Region, now: nat, order: seq<nat>)
    requires id < |s.conns| && !r.Open? && !r.Push?
    ensures var s' := Worked(c, s, id, r, now, order);
      && s'.conns == s.conns[id := s'.conns[id]] && s'.log == s.log
      && s'.conns[id].enqueued == s.conns[id].enqueued
      && (LockOf(r) != SubsLock ==> s'.conns[id].subs == s.conns[id].subs)
  {}

  lemma InsideMoves(k: Connection, pc: Pc)
    requires ConnStands(k) && k.pc.Inside? && !Starting(k.pc) && !Leaving(k.pc) && !Starting(pc) && !Leaving(pc)
    requires CastStands(pc) && (pc.Sending? ==> NoLive(pc.frames)) && (pc.Unlocking? ==> NoLive(pc.frames))
    ensures ConnStands(k.(pc := pc))
  {}

  lemma RegionStands(c: Config, s: State, id: nat, r: Region, now: nat, order: seq<nat>)
    requires id < |s.conns| && s.conns[id].pc == Inside(r) && !r.Open? && !r.Push? && ConnStands(s.conns[id])
    ensures ConnStands(Worked(c, s, id, r, now, order).conns[id])
  {
    var k := s.conns[id];
    if r.Recall? {
      RecallStands(k, r.sub, Query(Evicted(c, s.store, now), r.filter), r.filter);
    } else if r.Admit? || r.Budget? || r.Keep? {
      InsideMoves(k, Worked(c, s, id, r, now, order).conns[id].pc);
    } else if r.Subscribe? || r.Unsubscribe? {
      InsideMoves(k, Draining);
    }
  }

  lemma RecallStands(k: Connection, sub: string, events: seq<Event>, f: Filter)
    requires ConnStands(k) && k.pc.Inside? && k.pc.r.Recall?
    ensures ConnStands(k.(pc := Sending(Replay(sub, events) + [Eose(sub)], Remember(sub, f))))
  {
    ReplayHasNoLive(sub, events);
  }

  lemma RegionStill(c: Config, s: State, id: nat, r: Region, now: nat, order: seq<nat>)
    requires Stands(s) && id < |s.conns| && s.conns[id].pc == Inside(r) && !r.Open? && !r.Push?
    ensures Still(s, Worked(c, s, id, r, now, order)) && AllStand(Worked(c, s, id, r, now, order).conns)
  {
    var s' := Worked(c, s, id, r, now, order);
    RegionStands(c, s, id, r, now, order);
    RegionFrame(c, s, id, r, now, order);
    WorkedFrees(c, s, id, r, now, order);
    if LockOf(r) == SubsLock {
      SubsStep(s, s', id, s'.conns[id]);
    } else {
      OwnStep(s, s', id, s'.conns[id]);
    }
  }

  // ----- a broadcast -----

  lemma {:induction false} TodoForAppend(a: seq<Target>, b: seq<Target>, i: nat, e: Event, at: nat)
    ensures TodoFor(a + b, i, e, at) == TodoFor(a, i, e, at) + TodoFor(b, i, e, at)
  {
    if a == [] {
      assert a + b == b;
    } else {
      assert (a + b)[1..] == a[1..] + b;
      TodoForAppend(a[1..], b, i, e, at);
    }
  }

  lemma {:induction false} TodoForTargetsOf(conn: nat, subs: seq<Sub>, i: nat, e: Event, at: nat)
    ensures TodoFor(TargetsOf(conn, subs), i, e, at) == if conn == i then LiveFor(subs, e, at) else []
  {
    if subs != [] {
      var rest := TargetsOf(conn, subs[1..]);
      assert ([Target(conn, subs[0].0, subs[0].1)] + rest)[1..] == rest;
      TodoForTargetsOf(conn, subs[1..], i, e, at);
    }
  }

  /** A walk owes every connection what its subscriptions ask, once. */
  lemma {:induction false} WalkOwes(order: seq<nat>, conns: seq<Connection>, i: nat, e: Event, at: nat)
    requires NoDuplicates(order)
    ensures TodoFor(Targets(order, conns), i, e, at) == if i in order then LiveFor(SubsOf(conns, i), e, at) else []
  {
    if order != [] {
      var first := TargetsOf(order[0], SubsOf(conns, order[0]));
      TodoForAppend(first, Targets(order[1..], conns), i, e, at);
      TodoForTargetsOf(order[0], SubsOf(conns, order[0]), i, e, at);
      assert NoDuplicates(order[1..]);
      WalkOwes(order[1..], conns, i, e, at);
      assert order == [order[0]] + order[1..];
      assert order[0] !in order[1..];
    }
  }

  lemma {:induction false} TargetsOfStand(conn: nat, subs: seq<Sub>)
    ensures forall t <- TargetsOf(conn, subs) :: t.conn == conn && (t.sub, t.filter) in subs
  {
    if subs != [] {
      TargetsOfStand(conn, subs[1..]);
    }
  }

  lemma {:induction false} WalkStands(order: seq<nat>, conns: seq<Connection>)
    requires forall id <- order :: id < |conns|
    ensures TargetsStand(Targets(order, conns), conns)
  {
    if order != [] {
      assert order[0] in order && forall id <- order[1..] :: id in order;
      TargetsOfStand(order[0], conns[order[0]].subs);
      WalkStands(order[1..], conns);
    }
  }

  lemma OwedMore(log: seq<Broadcast>, b: Broadcast, i: nat)
    ensures Owed(log + [b], i) == Owed(log, i) + LiveFor(SubsIn(b, i), b.event, |log|)
  {
    assert (log + [b])[..|log|] == log;
  }

  lemma SameSubsStand(todo: seq<Target>, conns: seq<Connection>, after: seq<Connection>)
    requires TargetsStand(todo, conns) && |after| == |conns|
    requires forall i | 0 <= i < |conns| :: after[i].subs == conns[i].subs
    ensures TargetsStand(todo, after)
  {}

  lemma PcStands(k: Connection, pc: Pc)
    requires ConnStands(k) && CastStands(pc) && !pc.Sending? && !pc.Unlocking?
    requires !Leaving(k.pc) && !Starting(k.pc) && !Leaving(pc) && !Starting(pc)
    ensures ConnStands(k.(pc := pc))
  {}

  predicate SameQueues(s: State, s': State) {
    && |s'.conns| == |s.conns|
    && forall i | 0 <= i < |s.conns| ::
         s'.conns[i].enqueued == s.conns[i].enqueued && s'.conns[i].subs == s.conns[i].subs
  }

  lemma OpenEven(s: State, s': State, e: Event, order: seq<nat>)
    requires Even(s) && IsWalk(order, s.conns) && SameQueues(s, s') && RoundOf(s).None?
    requires s'.log == s.log + [Broadcast(e, AllSubs(s.conns))]
    requires RoundOf(s') == Some(Round(|s.log|, e, Targets(order, s.conns)))
    ensures Even(s')
  {
    forall i | 0 <= i < |s'.conns| ensures s'.conns[i].enqueued + Pending(s', i) == Owed(s'.log, i) {
      assert s.conns[i].enqueued + Pending(s, i) == Owed(s.log, i);
      assert s.conns[i].enqueued + [] == s.conns[i].enqueued;
      WalkOwes(order, s.conns, i, e, |s.log|);
      OwedMore(s.log, Broadcast(e, AllSubs(s.conns)), i);
    }
  }

  lemma OpenStands(s: State, id: nat, e: Event, order: seq<nat>)
    requires Stands(s) && id < |s.conns| && s.conns[id].pc == Inside(Open(e)) && IsWalk(order, s.conns)
    ensures var s' := Opened(s, id, e, order);
      Even(s') && AllStand(s'.conns) && LogFits(s'.log, |s'.conns|)
      && RoundOf(s').Some? && RoundStands(s', RoundOf(s').value)
  {
    var s' := Opened(s, id, e, order);
    var todo := Targets(order, s.conns);
    TheOwner(s, id);
    PcStands(s.conns[id], Casting(|s.log|, e, todo));
    WalkStands(order, s.conns);
    SameSubsStand(todo, s.conns, s'.conns);
    OpenEven(s, s', e, order);
  }

  lemma SamePending(s: State, s': State)
    requires Even(s) && SameQueues(s, s') && s'.log == s.log && forall i :: Pending(s', i) == Pending(s, i)
    ensures Even(s')
  {
    forall i | 0 <= i < |s'.conns| ensures s'.conns[i].enqueued + Pending(s', i) == Owed(s'.log, i) {
      assert s.conns[i].enqueued + Pending(s, i) == Owed(s.log, i);
    }
  }

  predicate Further(r: Round, r': Round) {
    r' == r || (r.todo != [] && r' == r.(todo := r.todo[1..]))
  }

  lemma CastPending(s: State, id: nat)
    requires Owned(s) && id < |s.conns| && s.conns[id].pc.Casting?
    ensures var s' := Cast(s, id, s.conns[id].pc.at, s.conns[id].pc.e, s.conns[id].pc.todo);
      && (forall i :: Pending(s', i) == Pending(s, i))
      && RoundOf(s).Some? && (RoundOf(s').Some? ==> Further(RoundOf(s).value, RoundOf(s').value))
  {
    TheOwner(s, id);
  }

  lemma CastConn(s: State, id: nat)
    requires id < |s.conns| && s.conns[id].pc.Casting? && ConnStands(s.conns[id])
    ensures var s' := Cast(s, id, s.conns[id].pc.at, s.conns[id].pc.e, s.conns[id].pc.todo);
      s'.conns == s.conns[id := s'.conns[id]] && ConnStands(s'.conns[id]) && SameQueues(s, s') && s'.log == s.log
  {
    var k := s.conns[id];
    PcStands(k, Cast(s, id, k.pc.at, k.pc.e, k.pc.todo).conns[id].pc);
  }

  lemma CastStandsStill(s: State, id: nat)
    requires Stands(s) && id < |s.conns| && s.conns[id].pc.Casting?
    ensures var s' := Cast(s, id, s.conns[id].pc.at, s.conns[id].pc.e, s.conns[id].pc.todo);
      Even(s') && AllStand(s'.conns) && LogFits(s'.log, |s'.conns|)
      && (RoundOf(s').Some? ==> RoundStands(s', RoundOf(s').value))
  {
    var s' := Cast(s, id, s.conns[id].pc.at, s.conns[id].pc.e, s.conns[id].pc.todo);
    TheOwner(s, id);
    CastPending(s, id);
    CastConn(s, id);
    SamePending(s, s');
    SameSubsStand(RoundOf(s).value.todo, s.conns, s'.conns);
  }

  /** The target's queue grows by the frame, and nobody else's. */
  predicate Grew(s: State, s': State, j: nat, f: Frame) {
    && |s'.conns| == |s.conns|
    && forall i | 0 <= i < |s.conns| ::
         && s'.conns[i].subs == s.conns[i].subs
         && s'.conns[i].enqueued == s.conns[i].enqueued + (if i == j then [f] else [])
  }

  lemma PushEven(s: State, s': State, j: nat, r: Round)
    requires Even(s) && RoundOf(s) == Some(r) && r.todo != [] && r.todo[0].conn == j && Matches(r.todo[0].filter, r.e)
    requires Grew(s, s', j, Live(r.todo[0].sub, r.e, r.at)) && s'.log == s.log
    requires RoundOf(s') == Some(r.(todo := r.todo[1..]))
    ensures Even(s')
  {
    var f := Live(r.todo[0].sub, r.e, r.at);
    forall i | 0 <= i < |s'.conns| ensures s'.conns[i].enqueued + Pending(s', i) == Owed(s'.log, i) {
      assert s.conns[i].enqueued + Pending(s, i) == Owed(s.log, i);
      SeqAssociative(s.conns[i].enqueued, if i == j then [f] else [], TodoFor(r.todo[1..], i, r.e, r.at));
    }
  }

  lemma QueueStands(k: Connection, f: Frame)
    requires ConnStands(k) && f.Live?
    ensures ConnStands(k.(queue := k.queue + [f], enqueued := k.enqueued + [f]))
  {
    SeqAssociative(LiveOf(k.wire), k.queue, [f]);
  }

  lemma PushConns(s: State, id: nat, at: nat, e: Event, todo: seq<Target>)
    requires id < |s.conns| && s.conns[id].pc == Inside(Push(at, e, todo)) && AllStand(s.conns)
    requires todo[0].conn < |s.conns| && s.conns[todo[0].conn].registered
    ensures var s' := Pushed(s, id, at, e, todo);
      && AllStand(s'.conns) && s'.log == s.log && Grew(s, s', todo[0].conn, Live(todo[0].sub, e, at))
      && s'.conns[id].pc == Casting(at, e, todo[1..])
  {
    var j, f := todo[0].conn, Live(todo[0].sub, e, at);
    QueueStands(s.conns[j], f);
    var t := Deliver(s, j, f);
    assert AllStand(t.conns);
    PcStands(t.conns[id], Casting(at, e, todo[1..]));
  }

  /** Who is walked to subscribes, and who subscribes is registered. */
  lemma PushTarget(s: State, id: nat, at: nat, e: Event, todo: seq<Target>)
    requires Stands(s) && id < |s.conns| && s.conns[id].pc == Inside(Push(at, e, todo))
    ensures RoundOf(s) == Some(Round(at, e, todo)) && todo != [] && Matches(todo[0].filter, e)
    ensures todo[0].conn < |s.conns| && (todo[0].sub, todo[0].filter) in s.conns[todo[0].conn].subs
    ensures s.conns[todo[0].conn].registered
  {
    TheOwner(s, id);
    assert ConnStands(s.conns[id]);
    assert todo[0] in todo;
    assert ConnStands(s.conns[todo[0].conn]);
  }

  lemma HeldRound(s: State, id: nat)
    requires id < |s.conns| && SubsLock in s.owner && s.owner[SubsLock] == Conn(id)
    ensures RoundOf(s) == RoundAt(s.conns[id].pc)
  {}

  /** The frame reaches its queue. */
  lemma PushStands(s: State, id: nat, at: nat, e: Event, todo: seq<Target>)
    requires Stands(s) && id < |s.conns| && s.conns[id].pc == Inside(Push(at, e, todo))
    ensures var s' := Pushed(s, id, at, e, todo);
      Even(s') && AllStand(s'.conns) && LogFits(s'.log, |s'.conns|)
      && RoundOf(s').Some? && RoundStands(s', RoundOf(s').value)
  {
    var s' := Pushed(s, id, at, e, todo);
    TheOwner(s, id);
    PushTarget(s, id, at, e, todo);
    PushConns(s, id, at, e, todo);
    PushedFrees(s, id, at, e, todo);
    HeldRound(s', id);
    PushEven(s, s', todo[0].conn, Round(at, e, todo));
    SameSubsStand(todo, s.conns, s'.conns);
  }

  // ----- every run -----

  lemma WorkStands(c: Config, s: State, id: nat, now: nat, order: seq<nat>)
    requires Stands(s) && Enabled(s, Work(id, now, order))
    ensures var s' := Do(c, s, Work(id, now, order));
      Even(s') && AllStand(s'.conns) && LogFits(s'.log, |s'.conns|)
      && (RoundOf(s').Some? ==> RoundStands(s', RoundOf(s').value))
  {
    var s' := Do(c, s, Work(id, now, order));
    match s.conns[id].pc
    case Unlocking(frames, then_) =>
      assert ConnStands(s.conns[id]);
      OwnStep(s, s', id, s.conns[id].(pc := Sending(frames, then_)));
      StillKeeps(s, s');
    case Casting(_, _, _) => CastStandsStill(s, id);
    case Inside(r) =>
      if r.Open? {
        OpenStands(s, id, r.e, order);
      } else if r.Push? {
        PushStands(s, id, r.at, r.e, r.todo);
      } else {
        RegionStill(c, s, id, r, now, order);
        StillKeeps(s, s');
      }
  }

  lemma AcquireStill(s: State, t: Thread)
    requires Stands(s) && Enabled(s, Acquire(t))
    ensures Still(s, Acquired(s, t)) && AllStand(Acquired(s, t).conns)
  {
    if t.Conn? {
      var r := s.conns[t.id].pc.r;
      assert ConnStands(s.conns[t.id]);
      assert ConnStands(s.conns[t.id].(pc := Inside(r)));
      if r.Push? {
        TheOwner(s, t.id);
      } else if LockOf(r) != SubsLock {
        NotTheOwner(s, t.id);
      }
    }
  }

  lemma ConnectStands(s: State)
    requires Stands(s)
    ensures var s' := s.(conns := s.conns + [NEWCOMER]); Still(s, s') && AllStand(s'.conns)
  {
    assert ConnStands(NEWCOMER);
    if SubsLock in s.owner {
      var t := s.owner[SubsLock];
      assert Owns(s, t, SubsLock) && HoldsLock(s, t, SubsLock);
    }
  }

  lemma OwnStands(s: State, s': State, id: nat)
    requires Stands(s) && Own(s, s', id) && !PcHolds(s.conns[id].pc, SubsLock) && ConnStands(s'.conns[id])
    ensures Still(s, s') && AllStand(s'.conns)
  {
    OwnStep(s, s', id, s'.conns[id]);
  }

  lemma SocketStands(c: Config, s: State, a: Action, id: nat, ok: bool)
    requires Stands(s) && Enabled(s, a) && (a == Drain(id, ok) || a == Send(id, ok) || a == Handshake(id, ok))
    ensures Still(s, Do(c, s, a)) && AllStand(Do(c, s, a).conns)
  {
    assert ConnStands(s.conns[id]);
    if a.Drain? {
      DrainStands(s, id, ok);
    } else if a.Send? {
      SendStands(s, id, ok);
    }
    OwnStands(s, Do(c, s, a), id);
  }

  lemma ReceiveStill(s: State, id: nat, input: Input, now: nat)
    requires Stands(s) && id < |s.conns| && s.conns[id].pc.Reading?
    ensures Still(s, Received(s, id, input, now)) && AllStand(Received(s, id, input, now).conns)
  {
    ReceiveStands(s, id, input, now);
    ReceiveOwn(s, id, input, now);
    OwnStands(s, Received(s, id, input, now), id);
  }

  lemma EvictorStands(c: Config, s: State, a: Action)
    requires Stands(s) && Enabled(s, a) && (a.Sweep? || a.Wake?)
    ensures Still(s, Do(c, s, a)) && AllStand(Do(c, s, a).conns)
  {}

  lemma OtherStands(c: Config, s: State, a: Action)
    requires Stands(s) && Enabled(s, a) && !a.Work? && !a.Acquire?
    ensures Still(s, Do(c, s, a)) && AllStand(Do(c, s, a).conns)
  {
    match a
    case Connect => ConnectStands(s);
    case Receive(id, input, now) => ReceiveStill(s, id, input, now);
    case Handshake(id, ok) => SocketStands(c, s, a, id, ok);
    case Drain(id, ok) => SocketStands(c, s, a, id, ok);
    case Send(id, ok) => SocketStands(c, s, a, id, ok);
    case _ => EvictorStands(c, s, a);
  }

  lemma StepStands(c: Config, s: State, a: Action)
    requires Stands(s) && Enabled(s, a)
    ensures Stands(Do(c, s, a))
  {
    StepKeeps(c, s, a);
    match a
    case Work(id, now, order) => WorkStands(c, s, id, now, order);
    case Acquire(t) =>
      AcquireStill(s, t);
      StillKeeps(s, Acquired(s, t));
    case _ =>
      OtherStands(c, s, a);
      StillKeeps(s, Do(c, s, a));
  }

  lemma {:induction false} RunStands(c: Config, run: seq<Action>)
    requires After(c, Init(), run).Some?
    ensures Stands(After(c, Init(), run).value)
  {
    if run != [] {
      var before := run[..|run| - 1];
      RunStands(c, before);
      StepStands(c, After(c, Init(), before).value, run[|run| - 1]);
    }
  }

  // ----- what it comes to -----

  predicate InOrder(frames: seq<Frame>) {
    forall i, j | 0 <= i < j < |frames| && frames[i].Live? && frames[j].Live? :: frames[i].at <= frames[j].at
  }

  /** A frame is for a broadcast, and for a subscription that broadcast found
      and whose filter matches. */
  ghost predicate Sound(log: seq<Broadcast>, i: nat, f: Frame) {
    && f.Live? && f.at < |log| && f.event == log[f.at].event
    && exists filter :: (f.sub, filter) in SubsIn(log[f.at], i) && Matches(filter, f.event)
  }

  lemma {:induction false} LiveForIs(subs: seq<Sub>, e: Event, at: nat)
    ensures forall f <- LiveFor(subs, e, at) ::
              f.Live? && f.at == at && f.event == e && exists filter :: (f.sub, filter) in subs && Matches(filter, e)
  {
    if subs != [] {
      LiveForIs(subs[1..], e, at);
    }
  }

  /** What is owed follows the order of broadcasts, and every frame of it is
      sound. */
  lemma {:induction false} OwedIs(log: seq<Broadcast>, i: nat)
    ensures InOrder(Owed(log, i)) && forall f <- Owed(log, i) :: Sound(log, i, f)
  {
    if log != [] {
      var n := |log| - 1;
      var b := log[n];
      OwedIs(log[..n], i);
      LiveForIs(SubsIn(b, i), b.event, n);
      var before, more := Owed(log[..n], i), LiveFor(SubsIn(b, i), b.event, n);
      forall f | f in before + more ensures Sound(log, i, f) {
        if f in before {
          assert Sound(log[..n], i, f);
          assert log[..n][f.at] == log[f.at];
        }
      }
      forall x, y | 0 <= x < y < |before + more| && (before + more)[x].Live? && (before + more)[y].Live?
        ensures (before + more)[x].at <= (before + more)[y].at
      {
        InOrderAcross(log[..n], before, more, n, i, x, y);
      }
    }
  }

  lemma InOrderAcross(log: seq<Broadcast>, before: seq<Frame>, more: seq<Frame>, n: nat, i: nat, x: nat, y: nat)
    requires InOrder(before) && |log| == n && (forall f <- before :: Sound(log, i, f))
    requires forall f <- more :: f.Live? && f.at == n
    requires x < y < |before + more| && (before + more)[x].Live? && (before + more)[y].Live?
    ensures (before + more)[x].at <= (before + more)[y].at
  {
    if x < |before| {
      assert Sound(log, i, before[x]);
    } else {
      assert more[x - |before|] in more;
    }
    if y >= |before| {
      assert more[y - |before|] in more;
    }
  }

  /** The law of delivery. Whatever the interleaving, a queue was given the
      broadcasts in their one order, each once for every subscription it found
      that matches; all of them whenever no broadcast is under way. The socket
      has taken a first part of that, and while the connection stays the rest is
      still queued. */
  lemma QueuesFollowTheLog(c: Config, run: seq<Action>, i: nat)
    requires After(c, Init(), run).Some? && i < |After(c, Init(), run).value.conns|
    ensures var s := After(c, Init(), run).value;
      var k := s.conns[i];
      && k.enqueued <= Owed(s.log, i) && (RoundOf(s).None? ==> k.enqueued == Owed(s.log, i))
      && LiveOf(k.wire) <= k.enqueued && (!Leaving(k.pc) ==> LiveOf(k.wire) + k.queue == k.enqueued)
  {
    RunStands(c, run);
    var s := After(c, Init(), run).value;
    assert ConnStands(s.conns[i]);
    assert s.conns[i].enqueued + Pending(s, i) == Owed(s.log, i);
    assert s.conns[i].enqueued + [] == s.conns[i].enqueued;
  }

  lemma PrefixOfOwed(log: seq<Broadcast>, i: nat, frames: seq<Frame>)
    requires frames <= Owed(log, i)
    ensures InOrder(frames) && forall f <- frames :: Sound(log, i, f)
  {
    OwedIs(log, i);
    forall x, y | 0 <= x < y < |frames| && frames[x].Live? && frames[y].Live? ensures frames[x].at <= frames[y].at {
      assert frames[x] == Owed(log, i)[x] && frames[y] == Owed(log, i)[y];
    }
  }

  /** So the live frames on every connection's wire are a part of one global
      order, and each is sound. */
  lemma WiresAreOrderedAndSound(c: Config, run: seq<Action>, i: nat)
    requires After(c, Init(), run).Some? && i < |After(c, Init(), run).value.conns|
    ensures var s := After(c, Init(), run).value;
      InOrder(LiveOf(s.conns[i].wire)) && forall f <- LiveOf(s.conns[i].wire) :: Sound(s.log, i, f)
  {
    QueuesFollowTheLog(c, run, i);
    var s := After(c, Init(), run).value;
    PrefixOfOwed(s.log, i, LiveOf(s.conns[i].wire));
  }
}
