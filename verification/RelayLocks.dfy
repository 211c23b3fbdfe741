/** The relay's locks: who holds one, in what order they are taken, and why the
    threads never all wait. */
module RelayLocks {
  import opened Text
  import opened RelayRules
  import opened Relay

  predicate Owns(s: State, t: Thread, l: Lock) { l in s.owner && s.owner[l] == t }

  /** A lock's owner is the one thread that believes it has it. */
  ghost predicate Owned(s: State) {
    forall t, l :: HoldsLock(s, t, l) <==> Owns(s, t, l)
  }

  /** Only the thread that stepped may hold something else than before, and the
      lock table moved with it. */
  ghost predicate OnlyBy(s: State, s': State, t: Thread) {
    && (forall u, l | u != t :: HoldsLock(s', u, l) <==> HoldsLock(s, u, l))
    && (forall l :: HoldsLock(s', t, l) <==> Owns(s', t, l))
    && (forall u, l | u != t :: Owns(s', u, l) <==> Owns(s, u, l))
  }

  lemma OnlyByKeeps(s: State, s': State, t: Thread)
    requires Owned(s) && OnlyBy(s, s', t)
    ensures Owned(s')
  {
    forall u, l ensures HoldsLock(s', u, l) <==> Owns(s', u, l) {
      if u != t {
        assert HoldsLock(s, u, l) <==> Owns(s, u, l);
      }
    }
  }

  /** A connection's step that frees the locks in `freed`. */
  lemma ConnStep(s: State, s': State, id: nat, freed: set<Lock>)
    requires Owned(s) && id < |s.conns| == |s'.conns| && s'.evictor == s.evictor
    requires forall i | 0 <= i < |s.conns| && i != id :: s'.conns[i].pc == s.conns[i].pc
    requires s'.owner == s.owner - freed
    requires forall l | l in freed :: PcHolds(s.conns[id].pc, l)
    requires forall l :: PcHolds(s'.conns[id].pc, l) <==> PcHolds(s.conns[id].pc, l) && l !in freed
    ensures Owned(s')
  {
    var t := Conn(id);
    forall l ensures PcHolds(s.conns[id].pc, l) <==> Owns(s, t, l) {
      assert HoldsLock(s, t, l) <==> Owns(s, t, l);
    }
    OnlyByKeeps(s, s', t);
  }

  lemma AcquireKeeps(s: State, t: Thread)
    requires Owned(s) && Enabled(s, Acquire(t))
    ensures Owned(Acquired(s, t))
  {
    var s' := Acquired(s, t);
    var got := WaitsFor(s, t).value;
    forall l ensures HoldsLock(s', t, l) <==> HoldsLock(s, t, l) || l == got {
    }
    forall l ensures HoldsLock(s', t, l) <==> Owns(s', t, l) {
      assert HoldsLock(s, t, l) <==> Owns(s, t, l);
    }
    OnlyByKeeps(s, s', t);
  }

  lemma WorkKeeps(c: Config, s: State, id: nat, now: nat, order: seq<nat>)
    requires Owned(s) && Enabled(s, Work(id, now, order))
    ensures Owned(Do(c, s, Work(id, now, order)))
  {
    var s' := Do(c, s, Work(id, now, order));
    match s.conns[id].pc
    case Unlocking(_, _) => ConnStep(s, s', id, {LimiterLock});
    case Casting(_, _, todo) => ConnStep(s, s', id, if todo == [] then {SubsLock} else {});
    case Inside(r) =>
      WorkedFrees(c, s, id, r, now, order);
      ConnStep(s, s', id, Freed(c, s, r));
  }

  /** The locks a region lets go of when it is done. */
  function Freed(c: Config, s: State, r: Region): set<Lock> {
    match r
    case Budget(e, at) => if Admits(c.rate, BudgetOf(s, e.author), at) then {} else {LimiterLock}
    case Open(_) => {}
    case _ => {LockOf(r)}
  }

  lemma WorkedFrees(c: Config, s: State, id: nat, r: Region, now: nat, order: seq<nat>)
    requires id < |s.conns| && (r.Open? ==> IsWalk(order, s.conns)) && s.conns[id].pc == Inside(r)
    ensures var s' := Worked(c, s, id, r, now, order);
      && s'.evictor == s.evictor && s'.owner == s.owner - Freed(c, s, r) && |s'.conns| == |s.conns|
      && (forall i | 0 <= i < |s.conns| && i != id :: s'.conns[i].pc == s.conns[i].pc)
      && (forall l :: PcHolds(s'.conns[id].pc, l) <==> PcHolds(Inside(r), l) && l !in Freed(c, s, r))
      && (forall l | l in Freed(c, s, r) :: PcHolds(Inside(r), l))
  {
    match r {
      case Push(at, e, todo) => PushedFrees(s, id, at, e, todo);
      case Open(e) => OpenedFrees(s, id, e, order);
      case Budget(e, at) => BudgetedFrees(c, s, id, e, at);
      case _ => SimplyFrees(c, s, id, r, now, order);
    }
  }

  lemma PushedFrees(s: State, id: nat, at: nat, e: Event, todo: seq<Target>)
    requires id < |s.conns|
    ensures var s' := Pushed(s, id, at, e, todo);
      && s'.evictor == s.evictor && s'.owner == s.owner - {OutLock} && |s'.conns| == |s.conns|
      && (forall i | 0 <= i < |s.conns| && i != id :: s'.conns[i].pc == s.conns[i].pc)
      && s'.conns[id].pc.Casting?
  {}

  lemma OpenedFrees(s: State, id: nat, e: Event, order: seq<nat>)
    requires id < |s.conns| && IsWalk(order, s.conns)
    ensures var s' := Opened(s, id, e, order);
      && s'.evictor == s.evictor && s'.owner == s.owner && |s'.conns| == |s.conns|
      && (forall i | 0 <= i < |s.conns| && i != id :: s'.conns[i].pc == s.conns[i].pc)
      && s'.conns[id].pc.Casting?
  {}

  lemma BudgetedFrees(c: Config, s: State, id: nat, e: Event, now: nat)
    requires id < |s.conns|
    ensures var s' := Budgeted(c, s, id, e, now);
      && s'.evictor == s.evictor && s'.owner == s.owner - Freed(c, s, Budget(e, now)) && |s'.conns| == |s.conns|
      && (forall i | 0 <= i < |s.conns| && i != id :: s'.conns[i].pc == s.conns[i].pc)
      && if Admits(c.rate, BudgetOf(s, e.author), now) then s'.conns[id].pc == Waiting(Keep(e, now))
         else s'.conns[id].pc.Sending?
  {}

  lemma SimplyFrees(c: Config, s: State, id: nat, r: Region, now: nat, order: seq<nat>)
    requires id < |s.conns| && !r.Push? && !r.Open? && !r.Budget?
    ensures var s' := Worked(c, s, id, r, now, order);
      && s'.evictor == s.evictor && s'.owner == s.owner - Freed(c, s, r) && |s'.conns| == |s.conns|
      && (forall i | 0 <= i < |s.conns| && i != id :: s'.conns[i].pc == s.conns[i].pc)
      && (forall l :: PcHolds(s'.conns[id].pc, l) <==> PcHolds(Inside(r), l) && l !in Freed(c, s, r))
  {}

  lemma EvictorKeeps(c: Config, s: State, a: Action)
    requires Owned(s) && Enabled(s, a) && (a.Sweep? || a.Wake?)
    ensures Owned(Do(c, s, a))
  {
    var s' := Do(c, s, a);
    assert HoldsLock(s, Evictor, StoreLock) <==> Owns(s, Evictor, StoreLock);
    forall l ensures HoldsLock(s', Evictor, l) <==> Owns(s', Evictor, l) {
      assert HoldsLock(s, Evictor, l) <==> Owns(s, Evictor, l);
    }
    OnlyByKeeps(s, s', Evictor);
  }

  lemma ConnectKeeps(s: State)
    requires Owned(s)
    ensures Owned(s.(conns := s.conns + [NEWCOMER]))
  {
    var s' := s.(conns := s.conns + [NEWCOMER]);
    var t := Conn(|s.conns|);
    forall l ensures !HoldsLock(s', t, l) && !Owns(s, t, l) {
      assert HoldsLock(s, t, l) <==> Owns(s, t, l);
    }
    OnlyByKeeps(s, s', t);
  }

  lemma StepKeeps(c: Config, s: State, a: Action)
    requires Owned(s) && Enabled(s, a)
    ensures Owned(Do(c, s, a))
  {
    match a
    case Connect => ConnectKeeps(s);
    case Acquire(t) => AcquireKeeps(s, t);
    case Work(id, now, order) => WorkKeeps(c, s, id, now, order);
    case Sweep(_) => EvictorKeeps(c, s, a);
    case Wake => EvictorKeeps(c, s, a);
    case Handshake(id, ok) => LocklessKeeps(s, id, s.conns[id].(pc := if ok then Waiting(Register) else Gone));
    case Drain(id, ok) => LocklessKeeps(s, id, Drained(s, id, ok).conns[id]);
    case Receive(id, input, now) => ReceiveKeeps(s, id, input, now);
    case Send(id, ok) => LocklessKeeps(s, id, Sent(s, id, ok).conns[id]);
  }

  lemma LocklessKeeps(s: State, id: nat, k: Connection)
    requires Owned(s) && id < |s.conns|
    requires forall l :: !PcHolds(s.conns[id].pc, l) && !PcHolds(k.pc, l)
    ensures Owned(Put(s, id, k))
  {
    ConnStep(s, Put(s, id, k), id, {});
  }

  lemma ReceiveKeeps(s: State, id: nat, input: Input, now: nat)
    requires Owned(s) && id < |s.conns| && s.conns[id].pc.Reading?
    ensures Owned(Received(s, id, input, now))
  {
    LocklessKeeps(s, id, Received(s, id, input, now).conns[id]);
  }

  lemma {:induction false} RunKeeps(c: Config, run: seq<Action>)
    requires After(c, Init(), run).Some?
    ensures Owned(After(c, Init(), run).value)
  {
    if run != [] {
      var before := run[..|run| - 1];
      RunKeeps(c, before);
      StepKeeps(c, After(c, Init(), before).value, run[|run| - 1]);
    }
  }

  // ----- what the table is good for -----

  function Rank(l: Lock): nat {
    match l
    case LimiterLock => 0
    case StoreLock => 1
    case SubsLock => 0
    case OutLock => 1
  }

  /** Limiters before store, subscriptions before outbound: whoever waits with a
      lock in hand waits for one further on. */
  lemma LocksAreOrdered(s: State, t: Thread, held: Lock)
    requires WaitsFor(s, t).Some? && HoldsLock(s, t, held)
    ensures Rank(held) < Rank(WaitsFor(s, t).value)
  {}

  /** A thread about to use its socket holds nothing. */
  lemma NoLockAcrossTheSocket(s: State, id: nat, l: Lock)
    requires id < |s.conns|
    requires s.conns[id].pc.Sending? || s.conns[id].pc.Draining? || s.conns[id].pc.Reading?
    ensures !HoldsLock(s, Conn(id), l)
  {}

  /** Two threads never hold one lock. */
  lemma LocksExclude(c: Config, run: seq<Action>, t: Thread, u: Thread, l: Lock)
    requires After(c, Init(), run).Some?
    requires HoldsLock(After(c, Init(), run).value, t, l) && HoldsLock(After(c, Init(), run).value, u, l)
    ensures t == u
  {
    RunKeeps(c, run);
  }

  lemma {:induction false} WalkUpTo(conns: seq<Connection>, n: nat) returns (order: seq<nat>)
    requires n <= |conns|
    ensures NoDuplicates(order) && (forall id <- order :: id < n) && forall id | 0 <= id < n :: id in order
  {
    order := [];
    if n > 0 {
      var before := WalkUpTo(conns, n - 1);
      order := before + [n - 1];
      assert forall i | 0 <= i < |before| :: before[i] in before;
    }
  }

  /** A lock's holder that waits for nothing can work, whatever the sockets do. */
  lemma HolderWorks(s: State, t: Thread, l: Lock) returns (a: Action)
    requires HoldsLock(s, t, l) && WaitsFor(s, t).None?
    ensures Enabled(s, a) && (a.Work? || a.Sweep?) && StepsAs(a, t)
  {
    match t
    case Evictor => a := Sweep(0);
    case Conn(id) =>
      var order := WalkUpTo(s.conns, |s.conns|);
      a := Work(id, 0, order);
  }

  predicate StepsAs(a: Action, t: Thread) {
    match a
    case Acquire(u) => u == t
    case Work(id, _, _) => t == Conn(id)
    case Sweep(_) => t == Evictor
    case _ => false
  }

  /** The thread itself, or the holder of what it waits for, or the holder of
      what that one waits for. */
  predicate Ahead(s: State, t: Thread, u: Thread) {
    u == t ||
    (WaitsFor(s, t).Some? && WaitsFor(s, t).value in s.owner &&
     var v := s.owner[WaitsFor(s, t).value];
     u == v || (WaitsFor(s, v).Some? && WaitsFor(s, v).value in s.owner && u == s.owner[WaitsFor(s, v).value]))
  }

  lemma NextInLine(s: State, t: Thread) returns (u: Thread, a: Action)
    requires Owned(s) && WaitsFor(s, t).Some?
    ensures Ahead(s, t, u) && Enabled(s, a) && StepsAs(a, u)
  {
    var l := WaitsFor(s, t).value;
    if l !in s.owner {
      return t, Acquire(t);
    }
    var v := s.owner[l];
    assert Owns(s, v, l) && HoldsLock(s, v, l);
    if WaitsFor(s, v).None? {
      a := HolderWorks(s, v, l);
      return v, a;
    }
    var m := WaitsFor(s, v).value;
    LocksAreOrdered(s, v, l);
    if m !in s.owner {
      return v, Acquire(v);
    }
    u := s.owner[m];
    assert Owns(s, u, m) && HoldsLock(s, u, m);
    LastLockHolderDoesNotWait(s, u, m);
    a := HolderWorks(s, u, m);
  }

  lemma LastLockHolderDoesNotWait(s: State, t: Thread, l: Lock)
    requires HoldsLock(s, t, l) && Rank(l) == 1
    ensures WaitsFor(s, t).None?
  {
    if WaitsFor(s, t).Some? {
      LocksAreOrdered(s, t, l);
    }
  }

  /** No deadlock: in every reachable state, for every thread that waits for a
      lock, some thread at most two locks ahead of it can take its next step, and
      that step needs no client. */
  lemma NoDeadlock(c: Config, run: seq<Action>, t: Thread)
    requires After(c, Init(), run).Some? && WaitsFor(After(c, Init(), run).value, t).Some?
    ensures var s := After(c, Init(), run).value;
      exists u, a :: Ahead(s, t, u) && StepsAs(a, u) && Enabled(s, a)
  {
    RunKeeps(c, run);
    var u, a := NextInLine(After(c, Init(), run).value, t);
  }

  /** What a thread can do by itself where it stands. */
  ghost predicate MayStep(s: State, i: nat)
    requires i < |s.conns|
  {
    match s.conns[i].pc
    case Accepting => forall ok :: Enabled(s, Handshake(i, ok))
    case Draining => forall ok :: Enabled(s, Drain(i, ok))
    case Sending(_, _) => forall ok :: Enabled(s, Send(i, ok))
    case Reading => forall input, now :: Enabled(s, Receive(i, input, now))
    case Waiting(r) => LockOf(r) !in s.owner ==> Enabled(s, Acquire(Conn(i)))
    case Gone => true
    case _ => forall now :: MayWork(s, i, now)
  }

  ghost predicate MayWork(s: State, i: nat, now: nat) { exists order :: Enabled(s, Work(i, now, order)) }

  /** Nothing but a lock ever keeps a thread from its next step: whatever the
      client sends, the socket does or the clock says. */
  lemma EveryThreadMayStep(s: State, i: nat)
    requires i < |s.conns|
    ensures MayStep(s, i)
  {
    var order := WalkUpTo(s.conns, |s.conns|);
    if s.conns[i].pc.Inside? || s.conns[i].pc.Unlocking? || s.conns[i].pc.Casting? {
      forall now ensures MayWork(s, i, now) {
        assert Enabled(s, Work(i, now, order));
      }
    }
  }
}
