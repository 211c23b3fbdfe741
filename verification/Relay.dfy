/** The relay (`src/nip46-relay.rs`) as concurrent steps. Four locks guard the
    event store, the rate limiters, the subscriptions and the outbound queues;
    each thread waits for a lock, works inside the region it guards and goes on,
    and between any two steps of one thread any others may step. Frames are those
    of NIP-01, "Communication between clients and relays". */
module Relay {
  import opened Text
  import opened RelayRules

  datatype Lock = StoreLock | LimiterLock | SubsLock | OutLock

  datatype Thread = Conn(id: nat) | Evictor

  type Sub = (string, Filter)

  /** A live frame carries its place in the order of broadcasts. */
  datatype Frame =
    | Notice
    | Pong
    | Goodbye
    | Answer(id: string, accepted: bool)
    | Refused(sub: string)
    | Replayed(sub: string, event: Event)
    | Eose(sub: string)
    | Live(sub: string, event: Event, at: nat)

  datatype Target = Target(conn: nat, sub: string, filter: Filter)

  /** What a thread does with a lock in hand. */
  datatype Region =
    | Register
    | Admit(e: Event, now: nat)
    | Budget(e: Event, now: nat)
    | Keep(e: Event, now: nat)
    | Recall(sub: string, filter: Filter)
    | Subscribe(sub: string, filter: Filter)
    | Unsubscribe(sub: string)
    | Open(e: Event)
    | Push(at: nat, e: Event, todo: seq<Target>)
    | LeaveSubs
    | LeaveOut

  /** What follows when the frames in hand are sent. */
  datatype Then = Serve | Spread(e: Event) | Remember(sub: string, filter: Filter)

  datatype Pc =
    | Accepting
    | Waiting(r: Region)
    | Inside(r: Region)
    | Unlocking(frames: seq<Frame>, then_: Then)  // insert done, the limiters still locked
    | Casting(at: nat, e: Event, todo: seq<Target>)  // walking the subscriptions
    | Draining
    | Reading
    | Sending(frames: seq<Frame>, then_: Then)
    | Gone

  datatype EvictorPc = Sleeping | Hungry | Sweeping

  /** One connection: its thread, its entries in the two shared maps, its queue
      and the frames its socket has taken. `asked` are the queries it was let
      through with, `enqueued` every frame its queue was ever given. */
  datatype Connection = Connection(
    pc: Pc,
    registered: bool,
    subs: seq<Sub>,
    queue: seq<Frame>,
    wire: seq<Frame>,
    asked: seq<Sub>,
    enqueued: seq<Frame>)

  /** A broadcast and the subscriptions it found. */
  datatype Broadcast = Broadcast(event: Event, subs: seq<seq<Sub>>)

  datatype State = State(
    conns: seq<Connection>,
    evictor: EvictorPc,
    owner: map<Lock, Thread>,
    store: seq<Stored>,
    budgets: map<Key, seq<nat>>,
    log: seq<Broadcast>)

  const NEWCOMER := Connection(Accepting, false, [], [], [], [], [])

  function Init(): State { State([], Sleeping, map[], [], map[], []) }

  // ----- locks -----

  function LockOf(r: Region): Lock {
    match r
    case Register => OutLock
    case Push(_, _, _) => OutLock
    case LeaveOut => OutLock
    case Admit(_, _) => StoreLock
    case Keep(_, _) => StoreLock
    case Recall(_, _) => StoreLock
    case Budget(_, _) => LimiterLock
    case _ => SubsLock
  }

  /** The lock a thread already has when it comes for the region's own. */
  function OuterLock(r: Region): Option<Lock> {
    match r
    case Keep(_, _) => Some(LimiterLock)
    case Push(_, _, _) => Some(SubsLock)
    case _ => None
  }

  predicate PcHolds(pc: Pc, l: Lock) {
    match pc
    case Waiting(r) => OuterLock(r) == Some(l)
    case Inside(r) => OuterLock(r) == Some(l) || LockOf(r) == l
    case Unlocking(_, _) => l == LimiterLock
    case Casting(_, _, _) => l == SubsLock
    case _ => false
  }

  predicate HoldsLock(s: State, t: Thread, l: Lock) {
    match t
    case Conn(id) => id < |s.conns| && PcHolds(s.conns[id].pc, l)
    case Evictor => s.evictor.Sweeping? && l == StoreLock
  }

  function WaitsFor(s: State, t: Thread): Option<Lock> {
    match t
    case Conn(id) => if id < |s.conns| && s.conns[id].pc.Waiting? then Some(LockOf(s.conns[id].pc.r)) else None
    case Evictor => if s.evictor.Hungry? then Some(StoreLock) else None
  }

  // ----- steps -----

  datatype Input =
    | Quiet  // nothing in a beat, or a frame that asks nothing
    | Ping
    | Bye
    | Lost
    | Junk
    | Publish(e: Event)
    | Ask(sub: string, filter: Filter)
    | Cease(sub: string)

  /** `order` is how the map of subscriptions is walked, `now` what the clock
      says, `ok` whether the socket takes the frame. */
  datatype Action =
    | Connect
    | Handshake(id: nat, ok: bool)
    | Acquire(t: Thread)
    | Work(id: nat, now: nat, order: seq<nat>)
    | Sweep(now: nat)
    | Drain(id: nat, ok: bool)
    | Receive(id: nat, input: Input, now: nat)
    | Send(id: nat, ok: bool)
    | Wake

  /** A walk over the map meets every connection that has subscriptions once. */
  predicate IsWalk(order: seq<nat>, conns: seq<Connection>) {
    && NoDuplicates(order) && (forall id <- order :: id < |conns|)
    && (forall id | 0 <= id < |conns| :: conns[id].subs != [] ==> id in order)
  }

  predicate Enabled(s: State, a: Action) {
    match a
    case Connect => true
    case Handshake(id, _) => id < |s.conns| && s.conns[id].pc.Accepting?
    case Acquire(t) => WaitsFor(s, t).Some? && WaitsFor(s, t).value !in s.owner
    case Work(id, _, order) =>
      && id < |s.conns| && (s.conns[id].pc.Inside? || s.conns[id].pc.Unlocking? || s.conns[id].pc.Casting?)
      && (s.conns[id].pc.Inside? && s.conns[id].pc.r.Open? ==> IsWalk(order, s.conns))
    case Sweep(_) => s.evictor.Sweeping?
    case Drain(id, _) => id < |s.conns| && s.conns[id].pc.Draining?
    case Receive(id, _, _) => id < |s.conns| && s.conns[id].pc.Reading?
    case Send(id, _) => id < |s.conns| && s.conns[id].pc.Sending?
    case Wake => s.evictor.Sleeping?
  }

  function Put(s: State, id: nat, k: Connection): State
    requires id < |s.conns|
  {
    s.(conns := s.conns[id := k])
  }

  function Goto(s: State, id: nat, pc: Pc): State
    requires id < |s.conns|
  {
    Put(s, id, s.conns[id].(pc := pc))
  }

  function Free(s: State, l: Lock): State { s.(owner := s.owner - {l}) }

  function Do(c: Config, s: State, a: Action): State
    requires Enabled(s, a)
  {
    match a
    case Connect => s.(conns := s.conns + [NEWCOMER])
    case Handshake(id, ok) => Goto(s, id, if ok then Waiting(Register) else Gone)
    case Acquire(t) => Acquired(s, t)
    case Work(id, now, order) =>
      (match s.conns[id].pc
       case Inside(r) => Worked(c, s, id, r, now, order)
       case Unlocking(frames, then_) => Goto(Free(s, LimiterLock), id, Sending(frames, then_))
       case Casting(at, e, todo) => Cast(s, id, at, e, todo)
       case _ => s)
    case Sweep(now) => Free(s, StoreLock).(store := Evicted(c, s.store, now), evictor := Sleeping)
    case Drain(id, ok) => Drained(s, id, ok)
    case Receive(id, input, now) => Received(s, id, input, now)
    case Send(id, ok) => Sent(s, id, ok)
    case Wake => s.(evictor := Hungry)
  }

  function Acquired(s: State, t: Thread): State
    requires WaitsFor(s, t).Some?
  {
    var got := s.(owner := s.owner[WaitsFor(s, t).value := t]);
    match t
    case Conn(id) => Goto(got, id, Inside(s.conns[id].pc.r))
    case Evictor => got.(evictor := Sweeping)
  }

  /** One region, from having its lock to letting it go. */
  function Worked(c: Config, s: State, id: nat, r: Region, now: nat, order: seq<nat>): State
    requires id < |s.conns| && (r.Open? ==> IsWalk(order, s.conns))
  {
    var k := s.conns[id];
    match r
    case Register => Put(Free(s, OutLock), id, k.(registered := true, pc := Draining))
    case Admit(e, at) =>
      Goto(Free(s, StoreLock), id,
           if Admission(c, e, at).None? then Waiting(Budget(e, at)) else Sending([Answer(e.id, false)], Serve))
    case Budget(e, at) => Budgeted(c, s, id, e, at)
    case Keep(e, at) =>
      var verdict := InsertVerdict(c, s.store, e, at);
      Goto(Free(s, StoreLock).(store := Inserted(c, s.store, e, at)), id,
           Unlocking([Answer(e.id, verdict in {None, Some(Duplicate)})], if verdict.None? then Spread(e) else Serve))
    case Recall(sub, f) =>
      var left := Evicted(c, s.store, now);
      Goto(Free(s, StoreLock).(store := left), id, Sending(Replay(sub, Query(left, f)) + [Eose(sub)], Remember(sub, f)))
    case Subscribe(sub, f) => Put(Free(s, SubsLock), id, k.(subs := k.subs + [(sub, f)], pc := Draining))
    case Unsubscribe(sub) => Put(Free(s, SubsLock), id, k.(subs := OtherSubs(k.subs, sub), pc := Draining))
    case Open(e) => Opened(s, id, e, order)
    case Push(at, e, todo) => Pushed(s, id, at, e, todo)
    case LeaveSubs => Put(Free(s, SubsLock), id, k.(subs := [], pc := Waiting(LeaveOut)))
    case LeaveOut => Put(Free(s, OutLock), id, k.(registered := false, pc := Gone))
  }

  function BudgetOf(s: State, key: Key): seq<nat> { if key in s.budgets then s.budgets[key] else [] }

  /** The budget is the key's, whatever connection spends it. */
  function Budgeted(c: Config, s: State, id: nat, e: Event, now: nat): State
    requires id < |s.conns|
  {
    var before := BudgetOf(s, e.author);
    var spent := s.(budgets := s.budgets[e.author := Spent(c.rate, before, now)]);
    if Admits(c.rate, before, now) then Goto(spent, id, Waiting(Keep(e, now)))
    else Goto(Free(spent, LimiterLock), id, Sending([Answer(e.id, false)], Serve))
  }

  function Replay(sub: string, events: seq<Event>): seq<Frame> {
    if events == [] then [] else [Replayed(sub, events[0])] + Replay(sub, events[1..])
  }

  function OtherSubs(subs: seq<Sub>, sub: string): seq<Sub> {
    if subs == [] then [] else (if subs[0].0 == sub then [] else [subs[0]]) + OtherSubs(subs[1..], sub)
  }

  function AllSubs(conns: seq<Connection>): seq<seq<Sub>> {
    seq(|conns|, i requires 0 <= i < |conns| => conns[i].subs)
  }

  function TargetsOf(conn: nat, subs: seq<Sub>): seq<Target> {
    if subs == [] then [] else [Target(conn, subs[0].0, subs[0].1)] + TargetsOf(conn, subs[1..])
  }

  function SubsOf(conns: seq<Connection>, id: nat): seq<Sub> { if id < |conns| then conns[id].subs else [] }

  function Targets(order: seq<nat>, conns: seq<Connection>): seq<Target> {
    if order == [] then [] else TargetsOf(order[0], SubsOf(conns, order[0])) + Targets(order[1..], conns)
  }

  function Opened(s: State, id: nat, e: Event, order: seq<nat>): State
    requires id < |s.conns| && IsWalk(order, s.conns)
  {
    Goto(s.(log := s.log + [Broadcast(e, AllSubs(s.conns))]), id, Casting(|s.log|, e, Targets(order, s.conns)))
  }

  function Cast(s: State, id: nat, at: nat, e: Event, todo: seq<Target>): State
    requires id < |s.conns|
  {
    if todo == [] then Goto(Free(s, SubsLock), id, Draining)
    else if Matches(todo[0].filter, e) then Goto(s, id, Waiting(Push(at, e, todo)))
    else Goto(s, id, Casting(at, e, todo[1..]))
  }

  /** A frame for a connection whose queue is gone is nobody's. */
  function Deliver(s: State, conn: nat, f: Frame): State {
    if conn < |s.conns| && s.conns[conn].registered then
      var k := s.conns[conn];
      Put(s, conn, k.(queue := k.queue + [f], enqueued := k.enqueued + [f]))
    else s
  }

  function Pushed(s: State, id: nat, at: nat, e: Event, todo: seq<Target>): State
    requires id < |s.conns|
  {
    var delivered := if todo == [] then s else Deliver(s, todo[0].conn, Live(todo[0].sub, e, at));
    Goto(Free(delivered, OutLock), id, Casting(at, e, if todo == [] then [] else todo[1..]))
  }

  /** Queued frames first, on every beat; a socket that fails ends the thread. */
  function Drained(s: State, id: nat, ok: bool): State
    requires id < |s.conns|
  {
    var k := s.conns[id];
    if k.queue == [] then Goto(s, id, Reading)
    else if ok then Put(s, id, k.(queue := k.queue[1..], wire := k.wire + [k.queue[0]]))
    else Put(s, id, k.(queue := k.queue[1..], pc := Waiting(LeaveSubs)))
  }

  function Received(s: State, id: nat, input: Input, now: nat): State
    requires id < |s.conns|
  {
    var k := s.conns[id];
    match input
    case Quiet => Goto(s, id, Draining)
    case Ping => Goto(s, id, Sending([Pong], Serve))
    case Bye => Put(s, id, k.(wire := k.wire + [Goodbye], pc := Waiting(LeaveSubs)))
    case Lost => Goto(s, id, Waiting(LeaveSubs))
    case Junk => Goto(s, id, Sending([Notice], Serve))
    case Publish(e) => Goto(s, id, Waiting(Admit(e, now)))
    case Ask(sub, f) =>
      if Passes(f) then Put(s, id, k.(asked := k.asked + [(sub, f)], pc := Waiting(Recall(sub, f))))
      else Goto(s, id, Sending([Refused(sub)], Serve))
    case Cease(sub) => Goto(s, id, Waiting(Unsubscribe(sub)))
  }

  function Next(then_: Then): Pc {
    match then_
    case Serve => Draining
    case Spread(e) => Waiting(Open(e))
    case Remember(sub, f) => Waiting(Subscribe(sub, f))
  }

  function Sent(s: State, id: nat, ok: bool): State
    requires id < |s.conns| && s.conns[id].pc.Sending?
  {
    var k := s.conns[id];
    var frames, then_ := k.pc.frames, k.pc.then_;
    if frames == [] then Goto(s, id, Next(then_))
    else if ok then Put(s, id, k.(wire := k.wire + [frames[0]], pc := Sending(frames[1..], then_)))
    else Goto(s, id, Waiting(LeaveSubs))
  }

  /** The state after a run, when every step of it can be taken. */
  function After(c: Config, s: State, run: seq<Action>): Option<State> {
    if run == [] then Some(s)
    else
      match After(c, s, run[..|run| - 1])
      case Some(t) => if Enabled(t, run[|run| - 1]) then Some(Do(c, t, run[|run| - 1])) else None
      case None => None
  }
}
