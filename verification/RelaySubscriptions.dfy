/** One subscription's life on the relay: what lets it in, what its wire
    carries, and what ends it. */
module RelaySubscriptions {
  import opened RelayRules
  import opened Relay
  import opened RelayLocks
  import opened RelayDelivery

  // ----- the shape of a subscription on the wire -----

  predicate Mentions(f: Frame, sub: string) { (f.Replayed? || f.Eose? || f.Live?) && f.sub == sub }

  predicate NoMention(frames: seq<Frame>, sub: string) { forall f <- frames :: !Mentions(f, sub) }

  /** How far the frames of one subscription have come: replays, then the frame
      that ends them, then live ones. */
  datatype Phase = CatchingUp | CaughtUp | OutOfOrder

  function Advance(p: Phase, f: Frame, sub: string): Phase {
    if !Mentions(f, sub) then p
    else if p.CatchingUp? && f.Replayed? then CatchingUp
    else if p.CatchingUp? && f.Eose? then CaughtUp
    else if p.CaughtUp? && f.Live? then CaughtUp
    else OutOfOrder
  }

  function PhaseOf(p: Phase, frames: seq<Frame>, sub: string): Phase
    decreases |frames|
  {
    if frames == [] then p else PhaseOf(Advance(p, frames[0], sub), frames[1..], sub)
  }

  lemma {:induction false} PhaseAppend(p: Phase, a: seq<Frame>, b: seq<Frame>, sub: string)
    ensures PhaseOf(p, a + b, sub) == PhaseOf(PhaseOf(p, a, sub), b, sub)
    decreases |a|
  {
    if a == [] {
      assert a + b == b;
    } else {
      assert (a + b)[1..] == a[1..] + b;
      PhaseAppend(Advance(p, a[0], sub), a[1..], b, sub);
    }
  }

  lemma {:induction false} PhaseUnmentioned(p: Phase, frames: seq<Frame>, sub: string)
    requires NoMention(frames, sub)
    ensures PhaseOf(p, frames, sub) == p
    decreases |frames|
  {
    if frames != [] {
      assert frames[0] in frames;
      PhaseUnmentioned(p, frames[1..], sub);
    }
  }

  lemma {:induction false} OutOfOrderStays(frames: seq<Frame>, sub: string)
    ensures PhaseOf(OutOfOrder, frames, sub) == OutOfOrder
  {
    if frames != [] {
      OutOfOrderStays(frames[1..], sub);
    }
  }

  lemma {:induction false} ReplayPhase(events: seq<Event>, sub: string)
    ensures PhaseOf(CatchingUp, Replay(sub, events), sub) == CatchingUp
  {
    if events != [] {
      var rest := Replay(sub, events[1..]);
      assert ([Replayed(sub, events[0])] + rest)[1..] == rest;
      ReplayPhase(events[1..], sub);
    }
  }

  lemma CatchUpPhase(events: seq<Event>, sub: string)
    ensures PhaseOf(CatchingUp, Replay(sub, events) + [Eose(sub)], sub) == CaughtUp
  {
    ReplayPhase(events, sub);
    PhaseAppend(CatchingUp, Replay(sub, events), [Eose(sub)], sub);
    assert [Eose(sub)][1..] == [];
  }

  // ----- one id, asked for once -----

  function Times(asked: seq<Sub>, sub: string): nat {
    if asked == [] then 0
    else
      var n := |asked| - 1;
      Times(asked[..n], sub) + (if asked[n].0 == sub then 1 else 0)
  }

  predicate Subscribed(subs: seq<Sub>, sub: string) { exists x <- subs :: x.0 == sub }

  function WirePhase(k: Connection, sub: string): Phase { PhaseOf(CatchingUp, k.wire, sub) }

  /** The thread is between letting the query in and remembering it. */
  predicate Opening(pc: Pc, sub: string) {
    match pc
    case Waiting(Recall(x, _)) => x == sub
    case Inside(Recall(x, _)) => x == sub
    case Waiting(Subscribe(x, _)) => x == sub
    case Inside(Subscribe(x, _)) => x == sub
    case Sending(_, Remember(x, _)) => x == sub
    case _ => false
  }

  predicate PcQuiet(pc: Pc, sub: string) {
    && (pc.Sending? ==> NoMention(pc.frames, sub))
    && (pc.Unlocking? ==> NoMention(pc.frames, sub) && !pc.then_.Remember?)
  }

  predicate OpeningShape(k: Connection, sub: string) {
    && !Subscribed(k.subs, sub) && NoMention(k.enqueued, sub)
    && match k.pc
       case Waiting(Recall(_, _)) => WirePhase(k, sub).CatchingUp?
       case Inside(Recall(_, _)) => WirePhase(k, sub).CatchingUp?
       case Sending(frames, _) => PhaseOf(WirePhase(k, sub), frames, sub).CaughtUp?
       case _ => WirePhase(k, sub).CaughtUp?
  }

  predicate SettledShape(k: Connection, sub: string) {
    && PcQuiet(k.pc, sub) && !WirePhase(k, sub).OutOfOrder?
    && (Subscribed(k.subs, sub) || !NoMention(k.enqueued, sub) ==> WirePhase(k, sub).CaughtUp?)
  }

  predicate UnaskedShape(k: Connection, sub: string) {
    && !Opening(k.pc, sub) && PcQuiet(k.pc, sub)
    && NoMention(k.wire, sub) && NoMention(k.enqueued, sub) && !Subscribed(k.subs, sub)
  }

  predicate Shape(k: Connection, sub: string) {
    && (k.pc.Unlocking? ==> PcQuiet(k.pc, sub))
    && (Times(k.asked, sub) == 0 ==> UnaskedShape(k, sub))
    && (Times(k.asked, sub) == 1 ==> if Opening(k.pc, sub) then OpeningShape(k, sub) else SettledShape(k, sub))
  }

  predicate AllShape(s: State, sub: string) { forall i | 0 <= i < |s.conns| :: Shape(s.conns[i], sub) }

  // ----- steps on one connection -----

  lemma TimesSnoc(asked: seq<Sub>, x: Sub, sub: string)
    ensures Times(asked + [x], sub) == Times(asked, sub) + (if x.0 == sub then 1 else 0)
  {
    assert (asked + [x])[..|asked|] == asked;
  }

  /** The thread moves on without a word about the subscription. */
  lemma MoveShape(k: Connection, pc: Pc, sub: string)
    requires Shape(k, sub) && !Opening(k.pc, sub) && !Opening(pc, sub)
    requires PcQuiet(pc, sub)
    ensures Shape(k.(pc := pc), sub)
  {}

  /** Or it moves on from an opening that it gives up. */
  lemma GiveUpShape(k: Connection, sub: string)
    requires Shape(k, sub) && k.pc.Sending?
    ensures Shape(k.(pc := Waiting(LeaveSubs)), sub)
  {
    if Opening(k.pc, sub) && WirePhase(k, sub).OutOfOrder? {
      OutOfOrderStays(k.pc.frames, sub);
    }
  }

  lemma WireSnoc(wire: seq<Frame>, f: Frame, sub: string)
    ensures PhaseOf(CatchingUp, wire + [f], sub) == Advance(PhaseOf(CatchingUp, wire, sub), f, sub)
  {
    PhaseAppend(CatchingUp, wire, [f], sub);
    assert [f][1..] == [];
  }

  /** The socket takes a frame that says nothing of the subscription. */
  lemma WireQuietShape(k: Connection, f: Frame, pc: Pc, sub: string)
    requires Shape(k, sub) && !Mentions(f, sub) && !Opening(k.pc, sub) && !Opening(pc, sub) && PcQuiet(pc, sub)
    ensures Shape(k.(wire := k.wire + [f], pc := pc), sub)
  {
    WireSnoc(k.wire, f, sub);
  }

  lemma DrainShape(s: State, id: nat, ok: bool, sub: string)
    requires id < |s.conns| && s.conns[id].pc.Draining? && ConnStands(s.conns[id]) && Shape(s.conns[id], sub)
    ensures Shape(Drained(s, id, ok).conns[id], sub)
  {
    var k := s.conns[id];
    if k.queue != [] && ok {
      var f := k.queue[0];
      assert f in k.queue && f in k.enqueued by {
        assert k.enqueued == LiveOf(k.wire) + k.queue;
      }
      WireSnoc(k.wire, f, sub);
    }
  }

  lemma SendShape(s: State, id: nat, ok: bool, sub: string)
    requires id < |s.conns| && s.conns[id].pc.Sending? && Shape(s.conns[id], sub)
    ensures Shape(Sent(s, id, ok).conns[id], sub)
  {
    var k := s.conns[id];
    if k.pc.frames == [] {
    } else if !ok {
      GiveUpShape(k, sub);
    } else {
      var f := k.pc.frames[0];
      assert f in k.pc.frames;
      WireSnoc(k.wire, f, sub);
      if !Opening(k.pc, sub) && Times(k.asked, sub) <= 1 {
        WireQuietShape(k, f, Sending(k.pc.frames[1..], k.pc.then_), sub);
      }
    }
  }

  lemma AskShape(k: Connection, x: string, f: Filter, sub: string)
    requires Shape(k, sub) && k.pc.Reading?
    ensures Shape(k.(asked := k.asked + [(x, f)], pc := Waiting(Recall(x, f))), sub)
  {
    TimesSnoc(k.asked, (x, f), sub);
    PhaseUnmentionedIf(k.wire, sub);
  }

  lemma PhaseUnmentionedIf(frames: seq<Frame>, sub: string)
    ensures NoMention(frames, sub) ==> PhaseOf(CatchingUp, frames, sub) == CatchingUp
  {
    if NoMention(frames, sub) {
      PhaseUnmentioned(CatchingUp, frames, sub);
    }
  }

  lemma ReceiveShape(s: State, id: nat, input: Input, now: nat, sub: string)
    requires id < |s.conns| && s.conns[id].pc.Reading? && Shape(s.conns[id], sub)
    ensures Shape(Received(s, id, input, now).conns[id], sub)
  {
    var k := s.conns[id];
    if input.Ask? && Passes(input.filter) {
      AskShape(k, input.sub, input.filter, sub);
    } else if input.Bye? {
      WireQuietShape(k, Goodbye, Waiting(LeaveSubs), sub);
    } else {
      MoveShape(k, Received(s, id, input, now).conns[id].pc, sub);
    }
  }

  lemma ReplayMentions(x: string, events: seq<Event>, sub: string)
    requires x != sub
    ensures NoMention(Replay(x, events) + [Eose(x)], sub)
  {
    ReplayHasNoLive(x, events);
  }

  lemma RecallShape(k: Connection, x: string, f: Filter, events: seq<Event>, sub: string)
    requires Shape(k, sub) && k.pc == Inside(Recall(x, f))
    ensures Shape(k.(pc := Sending(Replay(x, events) + [Eose(x)], Remember(x, f))), sub)
  {
    if x == sub {
      CatchUpPhase(events, sub);
    } else {
      ReplayMentions(x, events, sub);
    }
  }

  lemma SubscribeShape(k: Connection, x: string, f: Filter, sub: string)
    requires Shape(k, sub) && k.pc == Inside(Subscribe(x, f))
    ensures Shape(k.(subs := k.subs + [(x, f)], pc := Draining), sub)
  {}

  lemma FewerShape(k: Connection, subs: seq<Sub>, pc: Pc, sub: string)
    requires Shape(k, sub) && !Opening(k.pc, sub) && !Opening(pc, sub) && PcQuiet(pc, sub)
    requires forall x <- subs :: x in k.subs
    ensures Shape(k.(subs := subs, pc := pc), sub)
  {}

  lemma RegionShape(c: Config, s: State, id: nat, r: Region, now: nat, order: seq<nat>, sub: string)
    requires id < |s.conns| && s.conns[id].pc == Inside(r) && !r.Open? && !r.Push? && Shape(s.conns[id], sub)
    ensures Shape(Worked(c, s, id, r, now, order).conns[id], sub)
  {
    var k := s.conns[id];
    if r.Recall? {
      RecallShape(k, r.sub, r.filter, Query(Evicted(c, s.store, now), r.filter), sub);
    } else if r.Subscribe? {
      SubscribeShape(k, r.sub, r.filter, sub);
    } else if r.Unsubscribe? {
      OtherSubsOf(k.subs, r.sub);
      FewerShape(k, OtherSubs(k.subs, r.sub), Draining, sub);
    } else if r.LeaveSubs? {
      FewerShape(k, [], Waiting(LeaveOut), sub);
    } else if r.LeaveOut? || r.Register? {
      MoveShape(k, if r.Register? then Draining else Gone, sub);
    } else {
      MoveShape(k, Worked(c, s, id, r, now, order).conns[id].pc, sub);
    }
  }

  /** A live frame comes for a subscription that is there. */
  lemma QueueShape(k: Connection, f: Frame, sub: string)
    requires Shape(k, sub) && f.Live? && Subscribed(k.subs, f.sub)
    ensures Shape(k.(queue := k.queue + [f], enqueued := k.enqueued + [f]), sub)
  {}

  lemma TargetSubscribes(s: State, id: nat, at: nat, e: Event, todo: seq<Target>)
    requires Stands(s) && id < |s.conns| && s.conns[id].pc == Inside(Push(at, e, todo))
    ensures todo != [] && todo[0].conn < |s.conns| && Subscribed(s.conns[todo[0].conn].subs, todo[0].sub)
  {
    PushTarget(s, id, at, e, todo);
  }

  lemma DeliverShape(s: State, conn: nat, f: Frame, sub: string)
    requires AllShape(s, sub) && conn < |s.conns| && f.Live? && Subscribed(s.conns[conn].subs, f.sub)
    ensures AllShape(Deliver(s, conn, f), sub)
  {
    QueueShape(s.conns[conn], f, sub);
  }

  lemma PushShape(s: State, id: nat, at: nat, e: Event, todo: seq<Target>, sub: string)
    requires Stands(s) && AllShape(s, sub) && id < |s.conns| && s.conns[id].pc == Inside(Push(at, e, todo))
    ensures AllShape(Pushed(s, id, at, e, todo), sub)
  {
    TargetSubscribes(s, id, at, e, todo);
    var d := Deliver(s, todo[0].conn, Live(todo[0].sub, e, at));
    DeliverShape(s, todo[0].conn, Live(todo[0].sub, e, at), sub);
    MoveShape(d.conns[id], Casting(at, e, todo[1..]), sub);
  }

  // ----- every run -----

  lemma OneShape(s: State, s': State, id: nat, sub: string)
    requires AllShape(s, sub) && id < |s.conns| == |s'.conns| && s'.conns == s.conns[id := s'.conns[id]]
    requires Shape(s'.conns[id], sub)
    ensures AllShape(s', sub)
  {}

  lemma CastShape(s: State, id: nat, sub: string)
    requires AllShape(s, sub) && id < |s.conns| && s.conns[id].pc.Casting?
    ensures AllShape(Cast(s, id, s.conns[id].pc.at, s.conns[id].pc.e, s.conns[id].pc.todo), sub)
  {
    var k := s.conns[id];
    MoveShape(k, Cast(s, id, k.pc.at, k.pc.e, k.pc.todo).conns[id].pc, sub);
  }

  lemma UnlockShape(s: State, id: nat, sub: string)
    requires AllShape(s, sub) && id < |s.conns| && s.conns[id].pc.Unlocking?
    ensures AllShape(Goto(Free(s, LimiterLock), id, Sending(s.conns[id].pc.frames, s.conns[id].pc.then_)), sub)
  {
    assert Shape(s.conns[id], sub);
    MoveShape(s.conns[id], Sending(s.conns[id].pc.frames, s.conns[id].pc.then_), sub);
  }

  lemma OpenShape(s: State, id: nat, e: Event, order: seq<nat>, sub: string)
    requires AllShape(s, sub) && id < |s.conns| && s.conns[id].pc == Inside(Open(e)) && IsWalk(order, s.conns)
    ensures AllShape(Opened(s, id, e, order), sub)
  {
    MoveShape(s.conns[id], Casting(|s.log|, e, Targets(order, s.conns)), sub);
  }

  lemma InsideShape(c: Config, s: State, id: nat, r: Region, now: nat, order: seq<nat>, sub: string)
    requires AllShape(s, sub) && id < |s.conns| && s.conns[id].pc == Inside(r) && !r.Open? && !r.Push?
    ensures AllShape(Worked(c, s, id, r, now, order), sub)
  {
    assert Shape(s.conns[id], sub);
    RegionShape(c, s, id, r, now, order, sub);
    RegionFrame(c, s, id, r, now, order);
    OneShape(s, Worked(c, s, id, r, now, order), id, sub);
  }

  lemma WorkShape(c: Config, s: State, id: nat, now: nat, order: seq<nat>, sub: string)
    requires Stands(s) && AllShape(s, sub) && Enabled(s, Work(id, now, order))
    ensures AllShape(Do(c, s, Work(id, now, order)), sub)
  {
    match s.conns[id].pc
    case Unlocking(_, _) => UnlockShape(s, id, sub);
    case Casting(_, _, _) => CastShape(s, id, sub);
    case Inside(r) =>
      if r.Open? {
        OpenShape(s, id, r.e, order, sub);
      } else if r.Push? {
        PushShape(s, id, r.at, r.e, r.todo, sub);
      } else {
        InsideShape(c, s, id, r, now, order, sub);
      }
  }

  lemma AcquireShape(s: State, t: Thread, sub: string)
    requires AllShape(s, sub) && Enabled(s, Acquire(t))
    ensures AllShape(Acquired(s, t), sub)
  {
    if t.Conn? {
      var k := s.conns[t.id];
      assert Shape(k.(pc := Inside(k.pc.r)), sub);
    }
  }

  lemma SocketShape(c: Config, s: State, a: Action, id: nat, ok: bool, sub: string)
    requires Stands(s) && AllShape(s, sub) && Enabled(s, a)
    requires a == Drain(id, ok) || a == Send(id, ok) || a == Handshake(id, ok)
    ensures AllShape(Do(c, s, a), sub)
  {
    assert ConnStands(s.conns[id]) && Shape(s.conns[id], sub);
    if a.Drain? {
      DrainShape(s, id, ok, sub);
      DrainStands(s, id, ok);
    } else if a.Send? {
      SendShape(s, id, ok, sub);
      SendStands(s, id, ok);
    } else {
      MoveShape(s.conns[id], if ok then Waiting(Register) else Gone, sub);
    }
    OneShape(s, Do(c, s, a), id, sub);
  }

  lemma HearShape(s: State, id: nat, input: Input, now: nat, sub: string)
    requires AllShape(s, sub) && id < |s.conns| && s.conns[id].pc.Reading?
    ensures AllShape(Received(s, id, input, now), sub)
  {
    assert Shape(s.conns[id], sub);
    ReceiveShape(s, id, input, now, sub);
    ReceiveOwn(s, id, input, now);
    OneShape(s, Received(s, id, input, now), id, sub);
  }

  lemma StepShape(c: Config, s: State, a: Action, sub: string)
    requires Stands(s) && AllShape(s, sub) && Enabled(s, a)
    ensures AllShape(Do(c, s, a), sub)
  {
    match a
    case Connect => assert Shape(NEWCOMER, sub);
    case Acquire(t) => AcquireShape(s, t, sub);
    case Work(id, now, order) => WorkShape(c, s, id, now, order, sub);
    case Handshake(id, ok) => SocketShape(c, s, a, id, ok, sub);
    case Drain(id, ok) => SocketShape(c, s, a, id, ok, sub);
    case Send(id, ok) => SocketShape(c, s, a, id, ok, sub);
    case Receive(id, input, now) => HearShape(s, id, input, now, sub);
    case _ =>
  }

  lemma {:induction false} RunShape(c: Config, run: seq<Action>, sub: string)
    requires After(c, Init(), run).Some?
    ensures AllShape(After(c, Init(), run).value, sub)
  {
    if run != [] {
      var before := run[..|run| - 1];
      RunShape(c, before, sub);
      RunStands(c, before);
      StepShape(c, After(c, Init(), before).value, run[|run| - 1], sub);
    }
  }

  predicate AllReplayed(frames: seq<Frame>) { forall f <- frames :: f.Replayed? }

  predicate AllLive(frames: seq<Frame>) { forall f <- frames :: f.Live? }

  function About(frames: seq<Frame>, sub: string): seq<Frame> {
    if frames == [] then []
    else if Mentions(frames[0], sub) then [frames[0]] + About(frames[1..], sub)
    else About(frames[1..], sub)
  }

  /** Replays, then the frame that ends them, then live frames. */
  predicate InShape(frames: seq<Frame>, p: Phase, sub: string)
    decreases |frames|
  {
    match p
    case CatchingUp => AllReplayed(frames)
    case CaughtUp =>
      exists n | 0 <= n < |frames| :: AllReplayed(frames[..n]) && frames[n] == Eose(sub) && AllLive(frames[n + 1..])
    case OutOfOrder => false
  }

  lemma ShapeSnoc(frames: seq<Frame>, p: Phase, f: Frame, sub: string)
    requires InShape(frames, p, sub) && Mentions(f, sub) && !Advance(p, f, sub).OutOfOrder?
    ensures InShape(frames + [f], Advance(p, f, sub), sub)
  {
    var more := frames + [f];
    if p.CaughtUp? {
      var n :| 0 <= n < |frames| && AllReplayed(frames[..n]) && frames[n] == Eose(sub) && AllLive(frames[n + 1..]);
      assert more[..n] == frames[..n] && more[n + 1..] == frames[n + 1..] + [f];
    } else if f.Eose? {
      var n := |frames|;
      assert more[..n] == frames && more[n + 1..] == [];
    }
  }

  lemma {:induction false} AboutSnoc(frames: seq<Frame>, f: Frame, sub: string)
    ensures About(frames + [f], sub) == if Mentions(f, sub) then About(frames, sub) + [f] else About(frames, sub)
  {
    if frames == [] {
      assert [f][1..] == [] && [f] + [] == [f];
    } else {
      assert (frames + [f])[1..] == frames[1..] + [f];
      AboutSnoc(frames[1..], f, sub);
    }
  }

  /** What it means for a wire to be in order. */
  lemma {:induction false} PhaseMeans(wire: seq<Frame>, sub: string)
    ensures var p := PhaseOf(CatchingUp, wire, sub); p.OutOfOrder? || InShape(About(wire, sub), p, sub)
  {
    if wire != [] {
      var n := |wire| - 1;
      assert wire == wire[..n] + [wire[n]];
      PhaseMeans(wire[..n], sub);
      WireSnoc(wire[..n], wire[n], sub);
      AboutSnoc(wire[..n], wire[n], sub);
      var p := PhaseOf(CatchingUp, wire[..n], sub);
      if Mentions(wire[n], sub) && !Advance(p, wire[n], sub).OutOfOrder? {
        ShapeSnoc(About(wire[..n], sub), p, wire[n], sub);
      }
    }
  }

  lemma ShapeIsInOrder(k: Connection, sub: string)
    requires Shape(k, sub) && Times(k.asked, sub) <= 1
    ensures !WirePhase(k, sub).OutOfOrder?
  {
    PhaseUnmentionedIf(k.wire, sub);
    if Opening(k.pc, sub) && k.pc.Sending? && WirePhase(k, sub).OutOfOrder? {
      OutOfOrderStays(k.pc.frames, sub);
    }
  }

  /** For an id a connection has asked for once, the wire carries replays, then
      the frame that ends them, then only live frames. */
  lemma AFreshIdCatchesUpFirst(c: Config, run: seq<Action>, i: nat, sub: string)
    requires After(c, Init(), run).Some? && i < |After(c, Init(), run).value.conns|
    requires Times(After(c, Init(), run).value.conns[i].asked, sub) <= 1
    ensures var k := After(c, Init(), run).value.conns[i]; InShape(About(k.wire, sub), WirePhase(k, sub), sub)
  {
    RunShape(c, run, sub);
    var k := After(c, Init(), run).value.conns[i];
    ShapeIsInOrder(k, sub);
    PhaseMeans(k.wire, sub);
  }

  // ----- what ends a subscription -----

  /** The step by which a connection's query becomes a subscription. */
  predicate Remembers(s: State, a: Action, i: nat, sub: string) {
    a.Work? && a.id == i < |s.conns| && s.conns[i].pc.Inside?
    && s.conns[i].pc.r.Subscribe? && s.conns[i].pc.r.sub == sub
  }

  predicate Unheard(s: State, s': State, i: nat, sub: string) {
    && i < |s.conns| <= |s'.conns|
    && !Subscribed(s'.conns[i].subs, sub)
    && About(s'.conns[i].enqueued, sub) == About(s.conns[i].enqueued, sub)
  }

  lemma RegionUnheard(c: Config, s: State, id: nat, r: Region, now: nat, order: seq<nat>, i: nat, sub: string)
    requires id < |s.conns| && i < |s.conns| && !r.Open? && !r.Push? && !Subscribed(s.conns[i].subs, sub)
    requires id == i && r.Subscribe? ==> r.sub != sub
    ensures Unheard(s, Worked(c, s, id, r, now, order), i, sub)
  {
    RegionFrame(c, s, id, r, now, order);
    if r.Unsubscribe? {
      OtherSubsOf(s.conns[id].subs, r.sub);
    }
  }

  lemma GrewUnheard(s: State, s': State, j: nat, f: Frame, i: nat, sub: string)
    requires Grew(s, s', j, f) && i < |s.conns| && !Subscribed(s.conns[i].subs, sub)
    requires i == j ==> !Mentions(f, sub)
    ensures Unheard(s, s', i, sub)
  {
    AboutSnoc(s.conns[i].enqueued, f, sub);
    assert s.conns[i].enqueued + [] == s.conns[i].enqueued;
  }

  lemma PushUnheard(s: State, id: nat, at: nat, e: Event, todo: seq<Target>, i: nat, sub: string)
    requires Stands(s) && id < |s.conns| && s.conns[id].pc == Inside(Push(at, e, todo))
    requires i < |s.conns| && !Subscribed(s.conns[i].subs, sub)
    ensures Unheard(s, Pushed(s, id, at, e, todo), i, sub)
  {
    TargetSubscribes(s, id, at, e, todo);
    PushTarget(s, id, at, e, todo);
    PushConns(s, id, at, e, todo);
    GrewUnheard(s, Pushed(s, id, at, e, todo), todo[0].conn, Live(todo[0].sub, e, at), i, sub);
  }

  predicate Pushes(s: State, a: Action) {
    a.Work? && a.id < |s.conns| && s.conns[a.id].pc.Inside? && s.conns[a.id].pc.r.Push?
  }

  predicate ByConn(a: Action, i: nat) {
    match a
    case Handshake(id, _) => id == i
    case Acquire(t) => t == Conn(i)
    case Work(id, _, _) => id == i
    case Drain(id, _) => id == i
    case Receive(id, _, _) => id == i
    case Send(id, _) => id == i
    case _ => false
  }

  /** Only pushing a frame touches another connection. */
  lemma OthersUntouched(c: Config, s: State, a: Action, i: nat)
    requires Enabled(s, a) && i < |s.conns| && !ByConn(a, i) && !Pushes(s, a)
    ensures i < |Do(c, s, a).conns| && Do(c, s, a).conns[i] == s.conns[i]
  {
    if a.Work? && s.conns[a.id].pc.Inside? && !s.conns[a.id].pc.r.Open? {
      RegionFrame(c, s, a.id, s.conns[a.id].pc.r, a.now, a.order);
    } else if a.Receive? {
      ReceiveOwn(s, a.id, a.input, a.now);
    }
  }

  lemma OwnUnheard(c: Config, s: State, a: Action, i: nat, sub: string)
    requires Enabled(s, a) && i < |s.conns| && ByConn(a, i) && !a.Work? && !Subscribed(s.conns[i].subs, sub)
    ensures Unheard(s, Do(c, s, a), i, sub)
  {
    if a.Receive? {
      ReceiveOwn(s, i, a.input, a.now);
    }
  }

  lemma WorkUnheard(c: Config, s: State, i: nat, now: nat, order: seq<nat>, sub: string)
    requires Enabled(s, Work(i, now, order)) && !Subscribed(s.conns[i].subs, sub)
    requires !Pushes(s, Work(i, now, order)) && !Remembers(s, Work(i, now, order), i, sub)
    ensures Unheard(s, Do(c, s, Work(i, now, order)), i, sub)
  {
    if s.conns[i].pc.Inside? && !s.conns[i].pc.r.Open? {
      RegionUnheard(c, s, i, s.conns[i].pc.r, now, order, i, sub);
    }
  }

  lemma UntouchedIsUnheard(s: State, s': State, i: nat, sub: string)
    requires i < |s.conns| <= |s'.conns| && s'.conns[i] == s.conns[i] && !Subscribed(s.conns[i].subs, sub)
    ensures Unheard(s, s', i, sub)
  {}

  predicate Grows(s: State, s': State) { |s.conns| <= |s'.conns| }

  lemma StepGrows(c: Config, s: State, a: Action)
    requires Enabled(s, a)
    ensures Grows(s, Do(c, s, a))
  {
    if a.Work? && s.conns[a.id].pc.Inside? {
      WorkedFrees(c, s, a.id, s.conns[a.id].pc.r, a.now, a.order);
    } else if a.Receive? {
      ReceiveOwn(s, a.id, a.input, a.now);
    }
  }

  lemma OthersUnheard(c: Config, s: State, a: Action, i: nat, sub: string)
    requires Enabled(s, a) && i < |s.conns| && !ByConn(a, i) && !Pushes(s, a) && !Subscribed(s.conns[i].subs, sub)
    ensures Unheard(s, Do(c, s, a), i, sub)
  {
    OthersUntouched(c, s, a, i);
    StepGrows(c, s, a);
    UntouchedIsUnheard(s, Do(c, s, a), i, sub);
  }

  lemma PushStepUnheard(c: Config, s: State, a: Action, i: nat, sub: string)
    requires Stands(s) && Enabled(s, a) && Pushes(s, a) && i < |s.conns| && !Subscribed(s.conns[i].subs, sub)
    ensures Unheard(s, Do(c, s, a), i, sub)
  {
    var r := s.conns[a.id].pc.r;
    PushUnheard(s, a.id, r.at, r.e, r.todo, i, sub);
  }

  /** Nobody gives a queue a frame for an id it is not subscribed to, and only
      the connection's own query subscribes it. */
  lemma StepUnheard(c: Config, s: State, a: Action, i: nat, sub: string)
    requires Stands(s) && Enabled(s, a) && i < |s.conns|
    requires !Subscribed(s.conns[i].subs, sub) && !Remembers(s, a, i, sub)
    ensures Unheard(s, Do(c, s, a), i, sub)
  {
    if Pushes(s, a) {
      PushStepUnheard(c, s, a, i, sub);
    } else if !ByConn(a, i) {
      OthersUnheard(c, s, a, i, sub);
    } else if a.Work? {
      WorkUnheard(c, s, i, a.now, a.order, sub);
    } else {
      OwnUnheard(c, s, a, i, sub);
    }
  }

  predicate NeverRemembers(c: Config, first: seq<Action>, later: seq<Action>, i: nat, sub: string) {
    forall n | 0 <= n < |later| ::
      var s := After(c, Init(), first + later[..n]);
      s.Some? ==> !Remembers(s.value, later[n], i, sub)
  }

  lemma RunFront(c: Config, first: seq<Action>, later: seq<Action>)
    requires later != [] && After(c, Init(), first + later).Some?
    ensures var n := |later| - 1; var before := After(c, Init(), first + later[..n]);
      before.Some? && Enabled(before.value, later[n])
      && After(c, Init(), first + later).value == Do(c, before.value, later[n])
  {
    var run := first + later;
    assert run[..|run| - 1] == first + later[..|later| - 1];
  }

  /** While nothing registers it, a subscription that is not there is given
      nothing, however the threads interleave. */
  lemma {:induction false} NothingUnregistered(c: Config, first: seq<Action>, later: seq<Action>, i: nat, sub: string)
    requires After(c, Init(), first).Some? && After(c, Init(), first + later).Some?
    requires i < |After(c, Init(), first).value.conns|
    requires !Subscribed(After(c, Init(), first).value.conns[i].subs, sub) && NeverRemembers(c, first, later, i, sub)
    ensures Unheard(After(c, Init(), first).value, After(c, Init(), first + later).value, i, sub)
    decreases |later|
  {
    if later == [] {
      assert first + later == first;
    } else {
      var n := |later| - 1;
      RunFront(c, first, later);
      assert forall m | 0 <= m < n :: later[..n][m] == later[m] && later[..n][..m] == later[..m];
      NothingUnregistered(c, first, later[..n], i, sub);
      RunStands(c, first + later[..n]);
      StepUnheard(c, After(c, Init(), first + later[..n]).value, later[n], i, sub);
    }
  }

  /** Handling CLOSE is what ends it: every entry under that id, and no other. */
  lemma CloseEnds(c: Config, s: State, id: nat, sub: string, now: nat, order: seq<nat>)
    requires id < |s.conns| && s.conns[id].pc == Inside(Unsubscribe(sub))
    ensures var after := Do(c, s, Work(id, now, order)).conns[id].subs;
      !Subscribed(after, sub) && forall x: Sub :: x.0 != sub ==> (x in after <==> x in s.conns[id].subs)
  {
    OtherSubsOf(s.conns[id].subs, sub);
  }

  /** The thread has no query for the id on its way to being remembered. */
  predicate Idle(pc: Pc, sub: string) {
    !Opening(pc, sub) && (pc.Unlocking? ==> !pc.then_.Remember?)
  }

  predicate Asks(a: Action, i: nat, sub: string) { a.Receive? && a.id == i && a.input.Ask? && a.input.sub == sub }

  lemma RegionIdle(c: Config, s: State, id: nat, r: Region, now: nat, order: seq<nat>, sub: string)
    requires id < |s.conns| && s.conns[id].pc == Inside(r) && !r.Open? && !r.Push? && Idle(Inside(r), sub)
    ensures Idle(Worked(c, s, id, r, now, order).conns[id].pc, sub)
  {}

  lemma WorkIdle(c: Config, s: State, i: nat, now: nat, order: seq<nat>, sub: string)
    requires Enabled(s, Work(i, now, order)) && Idle(s.conns[i].pc, sub)
    ensures i < |Do(c, s, Work(i, now, order)).conns| && Idle(Do(c, s, Work(i, now, order)).conns[i].pc, sub)
  {
    if s.conns[i].pc.Inside? {
      var r := s.conns[i].pc.r;
      WorkedFrees(c, s, i, r, now, order);
      if r.Push? {
        PushedFrees(s, i, r.at, r.e, r.todo);
      } else if !r.Open? {
        RegionIdle(c, s, i, r, now, order, sub);
      }
    }
  }

  lemma HearIdle(s: State, i: nat, input: Input, now: nat, sub: string)
    requires i < |s.conns| && s.conns[i].pc.Reading? && !(input.Ask? && input.sub == sub)
    ensures Idle(Received(s, i, input, now).conns[i].pc, sub)
  {}

  lemma OwnIdle(c: Config, s: State, a: Action, i: nat, sub: string)
    requires Enabled(s, a) && i < |s.conns| && ByConn(a, i) && !a.Work? && !a.Receive? && Idle(s.conns[i].pc, sub)
    ensures i < |Do(c, s, a).conns| && Idle(Do(c, s, a).conns[i].pc, sub)
  {}

  lemma PushPastIdle(s: State, id: nat, r: Region, i: nat)
    requires r.Push? && id < |s.conns| && i < |s.conns| && i != id
    ensures var s' := Pushed(s, id, r.at, r.e, r.todo); |s'.conns| == |s.conns| && s'.conns[i].pc == s.conns[i].pc
  {}

  /** Only a query of the connection's own starts one. */
  lemma StepIdle(c: Config, s: State, a: Action, i: nat, sub: string)
    requires Enabled(s, a) && i < |s.conns| && Idle(s.conns[i].pc, sub) && !Asks(a, i, sub)
    ensures i < |Do(c, s, a).conns| && Idle(Do(c, s, a).conns[i].pc, sub)
  {
    if !ByConn(a, i) {
      if Pushes(s, a) {
        PushPastIdle(s, a.id, s.conns[a.id].pc.r, i);
      } else {
        OthersUntouched(c, s, a, i);
      }
    } else if a.Work? {
      WorkIdle(c, s, i, a.now, a.order, sub);
    } else if a.Receive? {
      ReceiveOwn(s, i, a.input, a.now);
      HearIdle(s, i, a.input, a.now, sub);
    } else {
      OwnIdle(c, s, a, i, sub);
    }
  }

  predicate NeverAsks(later: seq<Action>, i: nat, sub: string) { forall a <- later :: !Asks(a, i, sub) }

  lemma {:induction false} StaysIdle(c: Config, first: seq<Action>, later: seq<Action>, i: nat, sub: string)
    requires After(c, Init(), first).Some? && After(c, Init(), first + later).Some? && NeverAsks(later, i, sub)
    requires i < |After(c, Init(), first).value.conns| && Idle(After(c, Init(), first).value.conns[i].pc, sub)
    ensures i < |After(c, Init(), first + later).value.conns|
    ensures Idle(After(c, Init(), first + later).value.conns[i].pc, sub)
    decreases |later|
  {
    if later == [] {
      assert first + later == first;
    } else {
      var n := |later| - 1;
      RunFront(c, first, later);
      StaysIdle(c, first, later[..n], i, sub);
      StepIdle(c, After(c, Init(), first + later[..n]).value, later[n], i, sub);
    }
  }

  lemma {:induction false} RunReaches(c: Config, first: seq<Action>, later: seq<Action>, n: nat)
    requires n <= |later| && After(c, Init(), first + later).Some?
    ensures After(c, Init(), first + later[..n]).Some?
    decreases |later|
  {
    if n < |later| {
      var m := |later| - 1;
      RunFront(c, first, later);
      assert later[..m][..n] == later[..n];
      RunReaches(c, first, later[..m], n);
    } else {
      assert later[..n] == later;
    }
  }

  /** A thread that asks for nothing registers nothing. */
  lemma NeverAskedNeverRemembers(c: Config, first: seq<Action>, later: seq<Action>, i: nat, sub: string)
    requires After(c, Init(), first).Some? && After(c, Init(), first + later).Some? && NeverAsks(later, i, sub)
    requires i < |After(c, Init(), first).value.conns| && Idle(After(c, Init(), first).value.conns[i].pc, sub)
    ensures NeverRemembers(c, first, later, i, sub)
  {
    forall n | 0 <= n < |later|
      ensures var s := After(c, Init(), first + later[..n]); s.Some? ==> !Remembers(s.value, later[n], i, sub)
    {
      RunReaches(c, first, later, n);
      StaysIdle(c, first, later[..n], i, sub);
    }
  }

  /** Once CLOSE is handled, no broadcast is queued for that id in any
      continuation in which the connection sends no new REQ for it. */
  lemma NothingAfterClose(c: Config, before: seq<Action>, close: Action, later: seq<Action>, i: nat, sub: string)
    requires close.Work? && close.id == i
    requires After(c, Init(), before).Some? && i < |After(c, Init(), before).value.conns|
    requires After(c, Init(), before).value.conns[i].pc == Inside(Unsubscribe(sub))
    requires After(c, Init(), before + [close] + later).Some? && NeverAsks(later, i, sub)
    ensures After(c, Init(), before + [close]).Some?
    ensures Unheard(After(c, Init(), before + [close]).value, After(c, Init(), before + [close] + later).value, i, sub)
  {
    var first := before + [close];
    RunReaches(c, first, later, 0);
    assert first + later[..0] == first && first[..|before|] == before;
    CloseEnds(c, After(c, Init(), before).value, i, sub, close.now, close.order);
    NeverAskedNeverRemembers(c, first, later, i, sub);
    NothingUnregistered(c, first, later, i, sub);
  }

  /** A connection that has left is given nothing and sends nothing. */
  lemma StepAfterLeaving(c: Config, s: State, a: Action, i: nat)
    requires Stands(s) && Enabled(s, a) && i < |s.conns| && s.conns[i].pc.Gone?
    ensures i < |Do(c, s, a).conns| && Do(c, s, a).conns[i] == s.conns[i]
  {
    assert ConnStands(s.conns[i]);
    if Pushes(s, a) {
      PushPastGone(s, a.id, s.conns[a.id].pc.r, i);
    } else {
      OthersUntouched(c, s, a, i);
    }
  }

  lemma PushPastGone(s: State, id: nat, r: Region, i: nat)
    requires r.Push? && id < |s.conns| && i < |s.conns| && i != id && !s.conns[i].registered
    ensures var s' := Pushed(s, id, r.at, r.e, r.todo); |s'.conns| == |s.conns| && s'.conns[i] == s.conns[i]
  {}

  lemma {:induction false} NothingAfterLeaving(c: Config, first: seq<Action>, later: seq<Action>, i: nat)
    requires After(c, Init(), first).Some? && After(c, Init(), first + later).Some?
    requires i < |After(c, Init(), first).value.conns| && After(c, Init(), first).value.conns[i].pc.Gone?
    ensures i < |After(c, Init(), first + later).value.conns|
    ensures After(c, Init(), first + later).value.conns[i] == After(c, Init(), first).value.conns[i]
    decreases |later|
  {
    if later == [] {
      assert first + later == first;
    } else {
      var n := |later| - 1;
      RunFront(c, first, later);
      NothingAfterLeaving(c, first, later[..n], i);
      RunStands(c, first + later[..n]);
      StepAfterLeaving(c, After(c, Init(), first + later[..n]).value, later[n], i);
    }
  }
}
