/** What the relay owes once it has said or taken something, and keeps through
    every interleaving unless the connection itself breaks off: an accepted event
    is broadcast, an event is answered, a query is answered and remembered, CLOSE
    ends it, and what is held stays for its time to live. */
module RelayPromises {
  import opened Text
  import opened RelayRules
  import opened Relay
  import opened RelayLocks
  import opened RelayDelivery
  import opened RelaySubscriptions

  datatype Promise =
    | Broadcasts(e: Event, from: nat)          // in the log from some place on
    | Answers(id: string, from: nat)           // on the wire from some place on
    | Delivers(frames: seq<Frame>)             // what the wire begins with
    | Subscribes(sub: string, filter: Filter)
    | Ends(sub: string)

  /** The frames a thread has in hand for its socket. */
  function InHand(pc: Pc): seq<Frame> { if pc.Sending? || pc.Unlocking? then pc.frames else [] }

  function Taken(k: Connection): seq<Frame> { k.wire + InHand(k.pc) }

  /** The thread has an event to broadcast. */
  predicate Carries(pc: Pc, e: Event) {
    || (pc.Sending? && pc.then_ == Spread(e)) || (pc.Unlocking? && pc.then_ == Spread(e))
    || pc == Waiting(Open(e)) || pc == Inside(Open(e))
  }

  predicate LoggedFrom(log: seq<Broadcast>, e: Event, from: nat) {
    exists n | from <= n < |log| :: log[n].event == e
  }

  /** The thread has an event to answer. */
  predicate Considers(pc: Pc, id: string) {
    (pc.Waiting? || pc.Inside?) && (pc.r.Admit? || pc.r.Budget? || pc.r.Keep?) && pc.r.e.id == id
  }

  predicate AnsweredFrom(frames: seq<Frame>, id: string, from: nat) {
    exists n | from <= n < |frames| :: frames[n].Answer? && frames[n].id == id
  }

  /** The query is in and not yet remembered. */
  predicate Heard(pc: Pc, sub: string, f: Filter) {
    || pc in {Waiting(Recall(sub, f)), Inside(Recall(sub, f)), Waiting(Subscribe(sub, f)), Inside(Subscribe(sub, f))}
    || (pc.Sending? && pc.then_ == Remember(sub, f))
  }

  predicate Ending(pc: Pc, sub: string) {
    pc in {Waiting(Unsubscribe(sub)), Inside(Unsubscribe(sub)), Waiting(LeaveSubs), Inside(LeaveSubs)}
  }

  predicate Kept(k: Connection, log: seq<Broadcast>, p: Promise) {
    match p
    case Broadcasts(e, from) => LoggedFrom(log, e, from) || (from <= |log| && Carries(k.pc, e))
    case Answers(id, from) => AnsweredFrom(Taken(k), id, from) || (from <= |k.wire| && Considers(k.pc, id))
    case Delivers(frames) => frames <= Taken(k)
    case Subscribes(sub, f) => Heard(k.pc, sub, f) || ((sub, f) in k.subs && !Ending(k.pc, sub))
    case Ends(sub) =>
      k.pc in {Waiting(Unsubscribe(sub)), Inside(Unsubscribe(sub))} || (!Subscribed(k.subs, sub) && Idle(k.pc, sub))
  }

  /** What releases the relay from it: a socket that fails while frames are in
      hand, or the client's own word. */
  predicate Released(a: Action, i: nat, p: Promise) {
    match p
    case Subscribes(sub, _) =>
      || a == Send(i, false) || a == Drain(i, false)
      || (a.Receive? && a.id == i && (a.input == Cease(sub) || a.input == Bye || a.input == Lost))
    case Ends(sub) => Asks(a, i, sub)
    case _ => a == Send(i, false)
  }

  // ----- steps of others -----

  lemma Untouched(c: Config, s: State, a: Action, i: nat)
    requires Enabled(s, a) && i < |s.conns| && !ByConn(a, i)
    ensures i < |Do(c, s, a).conns|
    ensures var k, k' := s.conns[i], Do(c, s, a).conns[i];
      k'.pc == k.pc && k'.subs == k.subs && k'.wire == k.wire
  {
    if Pushes(s, a) {
      PushPast(s, a.id, s.conns[a.id].pc.r, i);
    } else {
      OthersUntouched(c, s, a, i);
    }
  }

  lemma PushPast(s: State, id: nat, r: Region, i: nat)
    requires r.Push? && id < |s.conns| && i < |s.conns| && i != id
    ensures var s' := Pushed(s, id, r.at, r.e, r.todo);
      && |s'.conns| == |s.conns|
      && var k, k' := s.conns[i], s'.conns[i]; k'.pc == k.pc && k'.subs == k.subs && k'.wire == k.wire
  {}

  lemma StepLogs(c: Config, s: State, a: Action)
    requires Enabled(s, a)
    ensures s.log <= Do(c, s, a).log
  {
    if a.Work? && s.conns[a.id].pc.Inside? && !s.conns[a.id].pc.r.Open? && !s.conns[a.id].pc.r.Push? {
      RegionFrame(c, s, a.id, s.conns[a.id].pc.r, a.now, a.order);
    } else if a.Receive? {
      ReceiveOwn(s, a.id, a.input, a.now);
    }
  }

  lemma RegionHolds(c: Config, s: State, id: nat, r: Region, now: nat, order: seq<nat>, x: Stored)
    requires id < |s.conns| && (r.Open? ==> IsWalk(order, s.conns)) && x in s.store
    requires 0 < c.ttl && now < x.received + c.ttl
    ensures x in Worked(c, s, id, r, now, order).store
  {
    EvictedIs(c, s.store, now);
  }

  /** What is held stays while its time to live runs. */
  predicate InTime(c: Config, a: Action, x: Stored) {
    a.Work? || a.Sweep? ==> 0 < c.ttl && a.now < x.received + c.ttl
  }

  lemma StepHolds(c: Config, s: State, a: Action, x: Stored)
    requires Enabled(s, a) && x in s.store && InTime(c, a, x)
    ensures x in Do(c, s, a).store
  {
    if a.Work? && s.conns[a.id].pc.Inside? {
      RegionHolds(c, s, a.id, s.conns[a.id].pc.r, a.now, a.order, x);
    } else if a.Sweep? {
      EvictedIs(c, s.store, a.now);
    } else if a.Receive? {
      ReceiveStore(s, a.id, a.input, a.now);
    }
  }

  lemma ReceiveStore(s: State, id: nat, input: Input, now: nat)
    requires id < |s.conns|
    ensures Received(s, id, input, now).store == s.store
  {}

  // ----- the connection's own steps -----

  lemma AcquireKept(k: Connection, log: seq<Broadcast>, p: Promise)
    requires k.pc.Waiting? && Kept(k, log, p)
    ensures Kept(k.(pc := Inside(k.pc.r)), log, p)
  {}

  lemma DrainKept(s: State, i: nat, ok: bool, p: Promise)
    requires i < |s.conns| && s.conns[i].pc.Draining? && Kept(s.conns[i], s.log, p)
    requires !Released(Drain(i, ok), i, p)
    ensures Kept(Drained(s, i, ok).conns[i], s.log, p)
  {
    TakenMore(s.conns[i].wire, Taken(Drained(s, i, ok).conns[i]), p);
  }

  /** Frames only ever come to the end. */
  lemma TakenMore(before: seq<Frame>, after: seq<Frame>, p: Promise)
    ensures before <= after && p.Answers? && AnsweredFrom(before, p.id, p.from) ==> AnsweredFrom(after, p.id, p.from)
  {
    if p.Answers? && before <= after && AnsweredFrom(before, p.id, p.from) {
      var n :| p.from <= n < |before| && before[n].Answer? && before[n].id == p.id;
      assert after[n] == before[n];
    }
  }

  lemma SendKept(s: State, i: nat, p: Promise)
    requires i < |s.conns| && s.conns[i].pc.Sending? && Kept(s.conns[i], s.log, p)
    ensures Kept(Sent(s, i, true).conns[i], s.log, p)
  {
    var k := s.conns[i];
    if k.pc.frames != [] {
      assert [k.pc.frames[0]] + k.pc.frames[1..] == k.pc.frames;
      SeqAssociative(k.wire, [k.pc.frames[0]], k.pc.frames[1..]);
    }
    assert Taken(Sent(s, i, true).conns[i]) == Taken(k);
  }

  lemma ReceiveKept(s: State, i: nat, input: Input, now: nat, p: Promise)
    requires i < |s.conns| && s.conns[i].pc.Reading? && Kept(s.conns[i], s.log, p)
    requires !Released(Receive(i, input, now), i, p)
    ensures Kept(Received(s, i, input, now).conns[i], s.log, p)
  {
    TakenMore(s.conns[i].wire, Taken(Received(s, i, input, now).conns[i]), p);
  }

  lemma AnswerKept(k: Connection, k': Connection, id: string, from: nat, accepted: bool)
    requires k'.wire == k.wire && InHand(k'.pc) == [Answer(id, accepted)] && from <= |k.wire|
    ensures AnsweredFrom(Taken(k'), id, from)
  {
    assert Taken(k')[|k.wire|] == Answer(id, accepted);
  }

  /** A region that neither broadcasts nor delivers. */
  lemma RegionKept(c: Config, s: State, i: nat, r: Region, now: nat, order: seq<nat>, p: Promise)
    requires i < |s.conns| && s.conns[i].pc == Inside(r) && !r.Open? && !r.Push?
    requires Kept(s.conns[i], s.log, p)
    ensures var s' := Worked(c, s, i, r, now, order); Kept(s'.conns[i], s'.log, p)
  {
    var k, k' := s.conns[i], Worked(c, s, i, r, now, order).conns[i];
    RegionFrame(c, s, i, r, now, order);
    RegionWire(c, s, i, r, now, order);
    assert Taken(k) == k.wire + [] == k.wire;
    match p
    case Broadcasts(e, from) =>
    case Answers(id, from) =>
      if Considers(k.pc, id) && from <= |k.wire| && !Considers(k'.pc, id) {
        RegionAnswers(c, s, i, r, now, order);
        AnswerKept(k, k', id, from, k'.pc.frames[0].accepted);
      } else {
        TakenMore(k.wire, Taken(k'), p);
      }
    case Delivers(frames) =>
    case Subscribes(sub, f) => RegionSubscribes(c, s, i, r, now, order, sub, f);
    case Ends(sub) => RegionEnds(c, s, i, r, now, order, sub);
  }

  lemma RegionWire(c: Config, s: State, i: nat, r: Region, now: nat, order: seq<nat>)
    requires i < |s.conns| && !r.Open? && !r.Push?
    ensures Worked(c, s, i, r, now, order).conns[i].wire == s.conns[i].wire
  {}

  lemma RegionAnswers(c: Config, s: State, i: nat, r: Region, now: nat, order: seq<nat>)
    requires i < |s.conns| && (r.Admit? || r.Budget? || r.Keep?)
    ensures var pc := Worked(c, s, i, r, now, order).conns[i].pc;
      Considers(pc, r.e.id) || exists ok :: InHand(pc) == [Answer(r.e.id, ok)]
  {
    var pc := Worked(c, s, i, r, now, order).conns[i].pc;
    if !Considers(pc, r.e.id) {
      assert InHand(pc) == [Answer(r.e.id, pc.frames[0].accepted)];
    }
  }

  lemma RegionSubscribes(c: Config, s: State, i: nat, r: Region, now: nat, order: seq<nat>, sub: string, f: Filter)
    requires i < |s.conns| && s.conns[i].pc == Inside(r) && !r.Open? && !r.Push?
    requires Heard(Inside(r), sub, f) || ((sub, f) in s.conns[i].subs && !Ending(Inside(r), sub))
    ensures var k := Worked(c, s, i, r, now, order).conns[i];
      Heard(k.pc, sub, f) || ((sub, f) in k.subs && !Ending(k.pc, sub))
  {
    if r.Unsubscribe? {
      OtherSubsOf(s.conns[i].subs, r.sub);
    }
  }

  lemma RegionEnds(c: Config, s: State, i: nat, r: Region, now: nat, order: seq<nat>, sub: string)
    requires i < |s.conns| && s.conns[i].pc == Inside(r) && !r.Open? && !r.Push?
    requires r == Unsubscribe(sub) || (!Subscribed(s.conns[i].subs, sub) && Idle(Inside(r), sub))
    ensures var k := Worked(c, s, i, r, now, order).conns[i]; !Subscribed(k.subs, sub) && Idle(k.pc, sub)
  {
    RegionIdle(c, s, i, r, now, order, sub);
    if r.Unsubscribe? {
      OtherSubsOf(s.conns[i].subs, r.sub);
    }
  }

  lemma OpenKept(s: State, i: nat, e: Event, order: seq<nat>, p: Promise)
    requires i < |s.conns| && s.conns[i].pc == Inside(Open(e)) && IsWalk(order, s.conns)
    requires Kept(s.conns[i], s.log, p)
    ensures var s' := Opened(s, i, e, order); Kept(s'.conns[i], s'.log, p)
  {
    var s' := Opened(s, i, e, order);
    assert s'.log[|s.log|].event == e;
    if p.Broadcasts? {
      LoggedMore(s.log, s'.log, p.e, p.from);
    }
  }

  lemma LoggedMore(log: seq<Broadcast>, more: seq<Broadcast>, e: Event, from: nat)
    requires log <= more
    ensures LoggedFrom(log, e, from) ==> LoggedFrom(more, e, from)
  {
    if n :| from <= n < |log| && log[n].event == e {
      assert more[n].event == e;
    }
  }

  lemma CastKept(s: State, i: nat, p: Promise)
    requires i < |s.conns| && s.conns[i].pc.Casting? && Kept(s.conns[i], s.log, p)
    ensures var s' := Cast(s, i, s.conns[i].pc.at, s.conns[i].pc.e, s.conns[i].pc.todo);
      Kept(s'.conns[i], s'.log, p)
  {
    var k := s.conns[i];
    WalkKept(k, Cast(s, i, k.pc.at, k.pc.e, k.pc.todo).conns[i].pc, s.log, p);
  }

  lemma WalkKept(k: Connection, pc: Pc, log: seq<Broadcast>, p: Promise)
    requires k.pc.Casting? && Kept(k, log, p)
    requires pc.Draining? || pc.Casting? || (pc.Waiting? && pc.r.Push?)
    ensures Kept(k.(pc := pc), log, p)
  {}

  lemma PushKept(s: State, i: nat, at: nat, e: Event, todo: seq<Target>, p: Promise)
    requires i < |s.conns| && s.conns[i].pc == Inside(Push(at, e, todo)) && Kept(s.conns[i], s.log, p)
    ensures var s' := Pushed(s, i, at, e, todo); Kept(s'.conns[i], s'.log, p)
  {}

  lemma WorkKept(c: Config, s: State, i: nat, now: nat, order: seq<nat>, p: Promise)
    requires Enabled(s, Work(i, now, order)) && Kept(s.conns[i], s.log, p)
    ensures var s' := Do(c, s, Work(i, now, order)); i < |s'.conns| && Kept(s'.conns[i], s'.log, p)
  {
    match s.conns[i].pc
    case Unlocking(_, _) =>
    case Casting(_, _, _) => CastKept(s, i, p);
    case Inside(r) =>
      WorkedFrees(c, s, i, r, now, order);
      if r.Open? {
        OpenKept(s, i, r.e, order, p);
      } else if r.Push? {
        PushKept(s, i, r.at, r.e, r.todo, p);
      } else {
        RegionKept(c, s, i, r, now, order, p);
      }
  }

  lemma OwnKept(c: Config, s: State, a: Action, i: nat, p: Promise)
    requires Enabled(s, a) && i < |s.conns| && ByConn(a, i) && !a.Work?
    requires Kept(s.conns[i], s.log, p) && !Released(a, i, p)
    ensures i < |Do(c, s, a).conns| && Kept(Do(c, s, a).conns[i], s.log, p)
  {
    match a
    case Acquire(_) => AcquireKept(s.conns[i], s.log, p);
    case Drain(_, ok) => DrainKept(s, i, ok, p);
    case Send(_, ok) => FailedSendKept(s, i, ok, p);
    case Receive(_, input, now) =>
      ReceiveOwn(s, i, input, now);
      ReceiveKept(s, i, input, now, p);
    case Handshake(_, _) =>
  }

  lemma FailedSendKept(s: State, i: nat, ok: bool, p: Promise)
    requires i < |s.conns| && s.conns[i].pc.Sending? && Kept(s.conns[i], s.log, p)
    requires !Released(Send(i, ok), i, p)
    ensures Kept(Sent(s, i, ok).conns[i], s.log, p)
  {
    SendKept(s, i, p);
  }

  /** Where only the log has grown. */
  lemma GrownKept(k: Connection, k': Connection, log: seq<Broadcast>, log': seq<Broadcast>, p: Promise)
    requires Kept(k, log, p) && k'.pc == k.pc && k'.subs == k.subs && k'.wire == k.wire && log <= log'
    ensures Kept(k', log', p)
  {
    if p.Broadcasts? {
      LoggedMore(log, log', p.e, p.from);
    }
  }

  /** A promise is kept by every step that does not release it. */
  lemma StepKeepsPromise(c: Config, s: State, a: Action, i: nat, p: Promise)
    requires Enabled(s, a) && i < |s.conns| && Kept(s.conns[i], s.log, p) && !Released(a, i, p)
    ensures var s' := Do(c, s, a); i < |s'.conns| && Kept(s'.conns[i], s'.log, p)
  {
    var s' := Do(c, s, a);
    StepGrows(c, s, a);
    StepLogs(c, s, a);
    if !ByConn(a, i) {
      Untouched(c, s, a, i);
      GrownKept(s.conns[i], s'.conns[i], s.log, s'.log, p);
    } else if a.Work? {
      WorkKept(c, s, i, a.now, a.order, p);
    } else {
      OwnKept(c, s, a, i, p);
      GrownKept(s'.conns[i], s'.conns[i], s.log, s'.log, p);
    }
  }

  predicate NeverReleased(later: seq<Action>, i: nat, p: Promise) {
    forall a <- later :: !Released(a, i, p)
  }

  /** So it holds in every continuation that does not release it. */
  lemma {:induction false} RunKeepsPromise(c: Config, first: seq<Action>, later: seq<Action>, i: nat, p: Promise)
    requires After(c, Init(), first).Some? && After(c, Init(), first + later).Some?
    requires var s := After(c, Init(), first).value; i < |s.conns| && Kept(s.conns[i], s.log, p)
    requires NeverReleased(later, i, p)
    ensures var s := After(c, Init(), first + later).value; i < |s.conns| && Kept(s.conns[i], s.log, p)
    decreases |later|
  {
    if later == [] {
      assert first + later == first;
    } else {
      var n := |later| - 1;
      RunFront(c, first, later);
      RunKeepsPromise(c, first, later[..n], i, p);
      StepKeepsPromise(c, After(c, Init(), first + later[..n]).value, later[n], i, p);
    }
  }

  // ----- what a thread has in hand was let in -----

  predicate LetIn(c: Config, pc: Pc) {
    (pc.Waiting? || pc.Inside?) && (pc.r.Budget? || pc.r.Keep?) ==> Admission(c, pc.r.e, pc.r.now).None?
  }

  lemma WorkLetsIn(c: Config, s: State, i: nat, now: nat, order: seq<nat>)
    requires Enabled(s, Work(i, now, order)) && LetIn(c, s.conns[i].pc)
    ensures var s' := Do(c, s, Work(i, now, order)); i < |s'.conns| && LetIn(c, s'.conns[i].pc)
  {
    if s.conns[i].pc.Inside? {
      var r := s.conns[i].pc.r;
      WorkedFrees(c, s, i, r, now, order);
      if r.Push? {
        PushedFrees(s, i, r.at, r.e, r.todo);
      } else if r.Open? {
        OpenedFrees(s, i, r.e, order);
      } else {
        RegionLetsIn(c, s, i, r, now, order);
      }
    }
  }

  lemma RegionLetsIn(c: Config, s: State, i: nat, r: Region, now: nat, order: seq<nat>)
    requires i < |s.conns| && !r.Open? && !r.Push? && LetIn(c, Inside(r))
    ensures LetIn(c, Worked(c, s, i, r, now, order).conns[i].pc)
  {}

  lemma StepLetsIn(c: Config, s: State, a: Action, i: nat)
    requires Enabled(s, a) && i < |s.conns| && LetIn(c, s.conns[i].pc)
    ensures i < |Do(c, s, a).conns| && LetIn(c, Do(c, s, a).conns[i].pc)
  {
    if !ByConn(a, i) {
      Untouched(c, s, a, i);
    } else if a.Work? {
      WorkLetsIn(c, s, i, a.now, a.order);
    } else if a.Receive? {
      ReceiveOwn(s, i, a.input, a.now);
      ReceiveLetsIn(c, s, i, a.input, a.now);
    } else {
      OwnLetsIn(c, s, a, i);
    }
  }

  lemma ReceiveLetsIn(c: Config, s: State, i: nat, input: Input, now: nat)
    requires i < |s.conns|
    ensures LetIn(c, Received(s, i, input, now).conns[i].pc)
  {}

  lemma OwnLetsIn(c: Config, s: State, a: Action, i: nat)
    requires Enabled(s, a) && i < |s.conns| && ByConn(a, i) && !a.Work? && !a.Receive? && LetIn(c, s.conns[i].pc)
    ensures i < |Do(c, s, a).conns| && LetIn(c, Do(c, s, a).conns[i].pc)
  {}

  lemma StepAddsNewcomers(c: Config, s: State, a: Action, i: nat)
    requires Enabled(s, a) && |s.conns| <= i < |Do(c, s, a).conns|
    ensures Do(c, s, a).conns[i] == NEWCOMER
  {
    if a.Work? && s.conns[a.id].pc.Inside? {
      WorkedFrees(c, s, a.id, s.conns[a.id].pc.r, a.now, a.order);
    } else if a.Receive? {
      ReceiveOwn(s, a.id, a.input, a.now);
    }
  }

  lemma {:induction false} RunLetsIn(c: Config, run: seq<Action>, i: nat)
    requires After(c, Init(), run).Some? && i < |After(c, Init(), run).value.conns|
    ensures LetIn(c, After(c, Init(), run).value.conns[i].pc)
  {
    if run != [] {
      var before, a := run[..|run| - 1], run[|run| - 1];
      var s := After(c, Init(), before).value;
      if i < |s.conns| {
        RunLetsIn(c, before, i);
        StepLetsIn(c, s, a, i);
      } else {
        StepAddsNewcomers(c, s, a, i);
      }
    }
  }

  // ----- the promises -----

  lemma RunBegins(c: Config, first: seq<Action>, a: Action, later: seq<Action>)
    requires After(c, Init(), first + [a] + later).Some?
    ensures After(c, Init(), first).Some? && Enabled(After(c, Init(), first).value, a)
    ensures After(c, Init(), first + [a]) == Some(Do(c, After(c, Init(), first).value, a))
  {
    RunReaches(c, first + [a], later, 0);
    assert first + [a] + later[..0] == first + [a] && (first + [a])[..|first|] == first;
  }

  /** An event is let past the store's door exactly when it is signed, of a
      carried kind and within the window; otherwise it is refused at once. */
  lemma TheStoreDoor(c: Config, s: State, i: nat, now: nat, order: seq<nat>, e: Event, at: nat)
    requires i < |s.conns| && s.conns[i].pc == Inside(Admit(e, at))
    ensures Do(c, s, Work(i, now, order)).store == s.store
    ensures var inside := 0 < e.created && e.created < at + c.window && at < e.created + c.window;
      Do(c, s, Work(i, now, order)).conns[i].pc ==
      if e.genuine && e.kind in {24133, 24135} && inside then Waiting(Budget(e, at))
      else Sending([Answer(e.id, false)], Serve)
  {
    AdmissionMeans(c, e, at);
  }

  /** An event past the door and its budget is answered true, and is then held;
      one the store did not hold is stored as it came and has a broadcast
      coming. */
  lemma AcceptedIsHeld(c: Config, run: seq<Action>, i: nat, now: nat, order: seq<nat>, e: Event, at: nat)
    requires After(c, Init(), run).Some? && i < |After(c, Init(), run).value.conns|
    requires After(c, Init(), run).value.conns[i].pc == Inside(Keep(e, at))
    ensures var s := After(c, Init(), run).value; var s' := Do(c, s, Work(i, now, order));
      && Holds(s'.store, e.id)
      && s'.store == (if Holds(s.store, e.id) then s.store else s.store + [Stored(e, at)])
      && s'.conns[i].pc == Unlocking([Answer(e.id, true)], if Holds(s.store, e.id) then Serve else Spread(e))
  {
    var s := After(c, Init(), run).value;
    RunLetsIn(c, run, i);
    assert Stored(e, at) in s.store + [Stored(e, at)];
  }

  /** An event that was not held and is taken in is broadcast. In every state
      from then on it has been, or its thread still carries it towards that,
      unless the connection's socket failed with the answer in hand. */
  lemma AcceptedIsBroadcast(c: Config, first: seq<Action>, work: Action, later: seq<Action>, i: nat, e: Event, at: nat)
    requires work.Work? && work.id == i && After(c, Init(), first + [work] + later).Some?
    requires After(c, Init(), first).Some? && i < |After(c, Init(), first).value.conns|
    requires After(c, Init(), first).value.conns[i].pc == Inside(Keep(e, at))
    requires !Holds(After(c, Init(), first).value.store, e.id) && Send(i, false) !in later
    ensures var n := |After(c, Init(), first).value.log|; var s' := After(c, Init(), first + [work] + later).value;
      i < |s'.conns| && (LoggedFrom(s'.log, e, n) || Carries(s'.conns[i].pc, e))
  {
    var s := After(c, Init(), first).value;
    var p := Broadcasts(e, |s.log|);
    RunBegins(c, first, work, later);
    AcceptedIsHeld(c, first, i, work.now, work.order, e, at);
    StepLogs(c, s, work);
    StepGrows(c, s, work);
    RunKeepsPromise(c, first + [work], later, i, p);
  }

  /** Every event a connection sends is answered, or under consideration, unless
      its socket fails. */
  lemma EveryEventIsAnswered(c: Config, first: seq<Action>, hear: Action, later: seq<Action>, i: nat, e: Event)
    requires hear.Receive? && hear.id == i && hear.input == Publish(e)
    requires After(c, Init(), first + [hear] + later).Some? && Send(i, false) !in later
    requires After(c, Init(), first).Some? && i < |After(c, Init(), first).value.conns|
    ensures var n := |After(c, Init(), first).value.conns[i].wire|;
      var s' := After(c, Init(), first + [hear] + later).value;
      i < |s'.conns| && (AnsweredFrom(Taken(s'.conns[i]), e.id, n) || Considers(s'.conns[i].pc, e.id))
  {
    var s := After(c, Init(), first).value;
    RunBegins(c, first, hear, later);
    RunKeepsPromise(c, first + [hear], later, i, Answers(e.id, |s.conns[i].wire|));
  }

  lemma {:induction false} ReplayedEach(sub: string, events: seq<Event>)
    ensures |Replay(sub, events)| == |events|
    ensures forall n | 0 <= n < |events| :: Replay(sub, events)[n] == Replayed(sub, events[n])
  {
    if events != [] {
      ReplayedEach(sub, events[1..]);
    }
  }

  /** The frames a query is answered with: one for each event the store gives of
      those still within their time, and the one that ends them. */
  ghost predicate AnswersQuery(c: Config, store: seq<Stored>, now: nat, sub: string, f: Filter, frames: seq<Frame>) {
    var given := Query(Evicted(c, store, now), f);
    && |frames| == |given| + 1 && frames[|given|] == Eose(sub)
    && forall n | 0 <= n < |given| :: frames[n] == Replayed(sub, given[n])
  }

  /** They reach the wire in that order and without a gap, or are still in hand,
      unless the socket fails. */
  lemma EveryQueryIsAnswered(c: Config, first: seq<Action>, work: Action, later: seq<Action>, i: nat,
                             sub: string, f: Filter)
    requires work.Work? && work.id == i && After(c, Init(), first + [work] + later).Some?
    requires After(c, Init(), first).Some? && i < |After(c, Init(), first).value.conns|
    requires After(c, Init(), first).value.conns[i].pc == Inside(Recall(sub, f)) && Send(i, false) !in later
    ensures var s := After(c, Init(), first).value; var s' := After(c, Init(), first + [work] + later).value;
      i < |s'.conns| && exists frames ::
        AnswersQuery(c, s.store, work.now, sub, f, frames) && s.conns[i].wire + frames <= Taken(s'.conns[i])
  {
    var s := After(c, Init(), first).value;
    var given := Query(Evicted(c, s.store, work.now), f);
    var frames := Replay(sub, given) + [Eose(sub)];
    ReplayedEach(sub, given);
    assert AnswersQuery(c, s.store, work.now, sub, f, frames);
    RunBegins(c, first, work, later);
    RunKeepsPromise(c, first + [work], later, i, Delivers(s.conns[i].wire + frames));
  }

  /** A query that names something, or asks for no kind the relay carries, is
      heard, and from then on remembered or on its way to being so, until its
      connection closes it or breaks off. */
  lemma EveryQueryIsRemembered(c: Config, first: seq<Action>, hear: Action, later: seq<Action>, i: nat,
                               sub: string, f: Filter)
    requires hear.Receive? && hear.id == i && hear.input == Ask(sub, f)
    requires f.authors != [] || f.p != [] || f.ids != []
             || (f.kinds != [] && 24133 !in f.kinds && 24135 !in f.kinds)
    requires After(c, Init(), first + [hear] + later).Some?
    requires NeverReleased(later, i, Subscribes(sub, f))
    ensures var s' := After(c, Init(), first + [hear] + later).value;
      i < |s'.conns| && (Heard(s'.conns[i].pc, sub, f) || (sub, f) in s'.conns[i].subs)
  {
    RunBegins(c, first, hear, later);
    TheDoorScopes(c, f);
    RunKeepsPromise(c, first + [hear], later, i, Subscribes(sub, f));
  }

  /** CLOSE is heard too: until the id is asked for again, it is being dropped or
      there is nothing under it. */
  lemma EveryCloseIsHeard(c: Config, first: seq<Action>, hear: Action, later: seq<Action>, i: nat, sub: string)
    requires hear.Receive? && hear.id == i && hear.input == Cease(sub)
    requires After(c, Init(), first + [hear] + later).Some? && NeverAsks(later, i, sub)
    ensures var s' := After(c, Init(), first + [hear] + later).value;
      i < |s'.conns| && (s'.conns[i].pc in {Waiting(Unsubscribe(sub)), Inside(Unsubscribe(sub))}
                         || forall x <- s'.conns[i].subs :: x.0 != sub)
  {
    RunBegins(c, first, hear, later);
    RunKeepsPromise(c, first + [hear], later, i, Ends(sub));
  }

  /** What the store holds it holds for the time to live, whatever it is asked. */
  lemma {:induction false} HeldForItsTime(c: Config, first: seq<Action>, later: seq<Action>, x: Stored)
    requires After(c, Init(), first).Some? && After(c, Init(), first + later).Some?
    requires x in After(c, Init(), first).value.store && forall a <- later :: InTime(c, a, x)
    ensures x in After(c, Init(), first + later).value.store
    decreases |later|
  {
    if later == [] {
      assert first + later == first;
    } else {
      var n := |later| - 1;
      RunFront(c, first, later);
      HeldForItsTime(c, first, later[..n], x);
      StepHolds(c, After(c, Init(), first + later[..n]).value, later[n], x);
    }
  }

  // ----- a broadcast reaches every match -----

  lemma {:induction false} RunLogs(c: Config, first: seq<Action>, later: seq<Action>)
    requires After(c, Init(), first).Some? && After(c, Init(), first + later).Some?
    ensures After(c, Init(), first).value.log <= After(c, Init(), first + later).value.log
    decreases |later|
  {
    if later == [] {
      assert first + later == first;
    } else {
      var n := |later| - 1;
      RunFront(c, first, later);
      RunLogs(c, first, later[..n]);
      StepLogs(c, After(c, Init(), first + later[..n]).value, later[n]);
    }
  }

  lemma {:induction false} LiveForHas(subs: seq<Sub>, e: Event, at: nat, sub: string, f: Filter)
    requires (sub, f) in subs && Matches(f, e)
    ensures Live(sub, e, at) in LiveFor(subs, e, at)
  {
    if subs[0] != (sub, f) {
      LiveForHas(subs[1..], e, at, sub, f);
    }
  }

  lemma {:induction false} OwedHas(log: seq<Broadcast>, j: nat, n: nat, sub: string, f: Filter)
    requires n < |log| && (sub, f) in SubsIn(log[n], j) && Matches(f, log[n].event)
    ensures Live(sub, log[n].event, n) in Owed(log, j)
  {
    if n == |log| - 1 {
      LiveForHas(SubsIn(log[n], j), log[n].event, n, sub, f);
    } else {
      OwedHas(log[..|log| - 1], j, n, sub, f);
    }
  }

  lemma {:induction false} LiveIsSent(frames: seq<Frame>, f: Frame)
    requires f in LiveOf(frames)
    ensures f in frames
  {
    var n := |frames| - 1;
    if f in LiveOf(frames[..n]) {
      LiveIsSent(frames[..n], f);
    }
  }

  /** A broadcast reaches every subscription that is there when it begins and
      whose filter matches: once no broadcast is under way the frame has been
      queued, and while that connection stays the frame is in its queue or on
      its wire. */
  lemma EveryMatchIsReached(c: Config, first: seq<Action>, work: Action, later: seq<Action>, i: nat, e: Event,
                            j: nat, sub: string, f: Filter)
    requires work.Work? && work.id == i && After(c, Init(), first + [work] + later).Some?
    requires After(c, Init(), first).Some? && RoundOf(After(c, Init(), first + [work] + later).value).None?
    requires var s := After(c, Init(), first).value;
      && i < |s.conns| && s.conns[i].pc == Inside(Open(e))
      && j < |s.conns| && (sub, f) in s.conns[j].subs && Matches(f, e)
    ensures var n := |After(c, Init(), first).value.log|; var s' := After(c, Init(), first + [work] + later).value;
      && j < |s'.conns| && Live(sub, e, n) in s'.conns[j].enqueued
      && (!Leaving(s'.conns[j].pc) ==> Live(sub, e, n) in s'.conns[j].queue || Live(sub, e, n) in s'.conns[j].wire)
  {
    var s := After(c, Init(), first).value;
    RunBegins(c, first, work, later);
    RunLogs(c, first + [work], later);
    RunConns(c, first + [work], later);
    OpenLogs(s, i, e, work.order, j);
    Reached(c, first + [work] + later, j, |s.log|, sub, f);
  }

  lemma OpenLogs(s: State, i: nat, e: Event, order: seq<nat>, j: nat)
    requires i < |s.conns| && j < |s.conns| && IsWalk(order, s.conns)
    ensures var s' := Opened(s, i, e, order);
      && |s'.conns| == |s.conns| && |s'.log| == |s.log| + 1
      && s'.log[|s.log|].event == e && SubsIn(s'.log[|s.log|], j) == s.conns[j].subs
  {}

  lemma {:induction false} RunConns(c: Config, first: seq<Action>, later: seq<Action>)
    requires After(c, Init(), first).Some? && After(c, Init(), first + later).Some?
    ensures |After(c, Init(), first).value.conns| <= |After(c, Init(), first + later).value.conns|
    decreases |later|
  {
    if later == [] {
      assert first + later == first;
    } else {
      var n := |later| - 1;
      RunFront(c, first, later);
      RunConns(c, first, later[..n]);
      StepGrows(c, After(c, Init(), first + later[..n]).value, later[n]);
    }
  }

  lemma Reached(c: Config, run: seq<Action>, j: nat, n: nat, sub: string, f: Filter)
    requires After(c, Init(), run).Some?
    requires var s := After(c, Init(), run).value;
      && RoundOf(s).None? && j < |s.conns| && n < |s.log|
      && (sub, f) in SubsIn(s.log[n], j) && Matches(f, s.log[n].event)
    ensures var s := After(c, Init(), run).value; var live := Live(sub, s.log[n].event, n);
      && live in s.conns[j].enqueued
      && (!Leaving(s.conns[j].pc) ==> live in s.conns[j].queue || live in s.conns[j].wire)
  {
    var s := After(c, Init(), run).value;
    var live := Live(sub, s.log[n].event, n);
    QueuesFollowTheLog(c, run, j);
    OwedHas(s.log, j, n, sub, f);
    if live in LiveOf(s.conns[j].wire) {
      LiveIsSent(s.conns[j].wire, live);
    }
  }

  // ----- a broadcast that is lost -----

  /** The store holds the event, nobody has it to broadcast, and nobody has
      broadcast it from some place in the log on. */
  predicate Silent(s: State, e: Event, x: Stored, from: nat) {
    && x in s.store && x.event.id == e.id && from <= |s.log| && !LoggedFrom(s.log, e, from)
    && forall j | 0 <= j < |s.conns| :: !Carries(s.conns[j].pc, e)
  }

  lemma RegionSilent(c: Config, s: State, j: nat, r: Region, now: nat, order: seq<nat>, e: Event, x: Stored)
    requires j < |s.conns| && !r.Open? && !r.Push? && x in s.store && x.event.id == e.id
    ensures !Carries(Worked(c, s, j, r, now, order).conns[j].pc, e)
  {
    assert Holds(s.store, e.id);
  }

  lemma WorkSilent(c: Config, s: State, j: nat, now: nat, order: seq<nat>, e: Event, x: Stored)
    requires Enabled(s, Work(j, now, order)) && !Carries(s.conns[j].pc, e) && x in s.store && x.event.id == e.id
    ensures var s' := Do(c, s, Work(j, now, order)); j < |s'.conns| && !Carries(s'.conns[j].pc, e)
  {
    if s.conns[j].pc.Inside? {
      var r := s.conns[j].pc.r;
      WorkedFrees(c, s, j, r, now, order);
      if r.Push? {
        PushedFrees(s, j, r.at, r.e, r.todo);
      } else if r.Open? {
        OpenedFrees(s, j, r.e, order);
      } else {
        RegionSilent(c, s, j, r, now, order, e, x);
      }
    }
  }

  lemma OwnSilent(c: Config, s: State, a: Action, j: nat, e: Event)
    requires Enabled(s, a) && j < |s.conns| && ByConn(a, j) && !a.Work? && !Carries(s.conns[j].pc, e)
    ensures j < |Do(c, s, a).conns| && !Carries(Do(c, s, a).conns[j].pc, e)
  {
    if a.Receive? {
      ReceiveOwn(s, j, a.input, a.now);
      ReceiveSilent(s, j, a.input, a.now, e);
    }
  }

  lemma ReceiveSilent(s: State, j: nat, input: Input, now: nat, e: Event)
    requires j < |s.conns|
    ensures s.conns[j].pc.Reading? ==> !Carries(Received(s, j, input, now).conns[j].pc, e)
  {}

  lemma LogSilent(c: Config, s: State, a: Action, e: Event, x: Stored, from: nat)
    requires Enabled(s, a) && Silent(s, e, x, from)
    ensures !LoggedFrom(Do(c, s, a).log, e, from)
  {
    if a.Work? && s.conns[a.id].pc.Inside? && !s.conns[a.id].pc.r.Open? && !s.conns[a.id].pc.r.Push? {
      RegionFrame(c, s, a.id, s.conns[a.id].pc.r, a.now, a.order);
    } else if a.Receive? {
      ReceiveOwn(s, a.id, a.input, a.now);
    }
  }

  lemma StepSilent(c: Config, s: State, a: Action, e: Event, x: Stored, from: nat)
    requires Enabled(s, a) && Silent(s, e, x, from) && InTime(c, a, x)
    ensures Silent(Do(c, s, a), e, x, from)
  {
    var s' := Do(c, s, a);
    StepHolds(c, s, a, x);
    StepLogs(c, s, a);
    LogSilent(c, s, a, e, x, from);
    forall j | 0 <= j < |s'.conns| ensures !Carries(s'.conns[j].pc, e) {
      if j >= |s.conns| {
        StepAddsNewcomers(c, s, a, j);
      } else if !ByConn(a, j) {
        Untouched(c, s, a, j);
      } else if a.Work? {
        WorkSilent(c, s, j, a.now, a.order, e, x);
      } else {
        OwnSilent(c, s, a, j, e);
      }
    }
  }

  lemma {:induction false} RunSilent(c: Config, first: seq<Action>, later: seq<Action>, e: Event, x: Stored, from: nat)
    requires After(c, Init(), first).Some? && After(c, Init(), first + later).Some?
    requires Silent(After(c, Init(), first).value, e, x, from) && forall a <- later :: InTime(c, a, x)
    ensures Silent(After(c, Init(), first + later).value, e, x, from)
    decreases |later|
  {
    if later == [] {
      assert first + later == first;
    } else {
      var n := |later| - 1;
      RunFront(c, first, later);
      RunSilent(c, first, later[..n], e, x, from);
      StepSilent(c, After(c, Init(), first + later[..n]).value, later[n], e, x, from);
    }
  }

  /** The broadcast waits for the answer to be sent. When the socket fails on it,
      the event is held and, for as long as it is, never broadcast: whoever sends
      it again is told that it is there. */
  lemma ALostAnswerLosesTheBroadcast(c: Config, first: seq<Action>, later: seq<Action>, i: nat,
                                     frames: seq<Frame>, e: Event, x: Stored)
    requires After(c, Init(), first).Some? && After(c, Init(), first + [Send(i, false)] + later).Some?
    requires var s := After(c, Init(), first).value;
      && i < |s.conns| && s.conns[i].pc == Sending(frames, Spread(e)) && frames != []
      && x in s.store && x.event.id == e.id
      && forall j | 0 <= j < |s.conns| && j != i :: !Carries(s.conns[j].pc, e)
    requires forall a <- later :: InTime(c, a, x)
    ensures var s' := After(c, Init(), first + [Send(i, false)] + later).value;
      x in s'.store && !LoggedFrom(s'.log, e, |After(c, Init(), first).value.log|)
  {
    var s := After(c, Init(), first).value;
    RunBegins(c, first, Send(i, false), later);
    assert Silent(Sent(s, i, false), e, x, |s.log|);
    RunSilent(c, first + [Send(i, false)], later, e, x, |s.log|);
  }
}
