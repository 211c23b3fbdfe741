/** Where every EVENT frame comes from: a signed event of a kind the relay
    carries, and a query that connection was let in with. */
module RelayProvenance {
  import opened RelayRules
  import opened Relay
  import opened RelayDelivery

  predicate Good(e: Event) { e.genuine && Carried(e.kind) }

  predicate AskedFor(asked: seq<Sub>, sub: string, e: Event) {
    exists x <- asked :: x.0 == sub && Passes(x.1) && Matches(x.1, e)
  }

  predicate FrameVouched(asked: seq<Sub>, f: Frame) { f.Replayed? ==> Good(f.event) && AskedFor(asked, f.sub, f.event) }

  predicate FramesVouched(asked: seq<Sub>, frames: seq<Frame>) { forall f <- frames :: FrameVouched(asked, f) }

  predicate ThenVouched(asked: seq<Sub>, then_: Then) {
    (then_.Spread? ==> Good(then_.e)) && (then_.Remember? ==> (then_.sub, then_.filter) in asked)
  }

  predicate RegionVouched(asked: seq<Sub>, r: Region) {
    match r
    case Budget(e, _) => Good(e)
    case Keep(e, _) => Good(e)
    case Open(e) => Good(e)
    case Recall(sub, f) => (sub, f) in asked
    case Subscribe(sub, f) => (sub, f) in asked
    case _ => true
  }

  predicate PcVouched(asked: seq<Sub>, pc: Pc) {
    match pc
    case Waiting(r) => RegionVouched(asked, r)
    case Inside(r) => RegionVouched(asked, r)
    case Unlocking(frames, then_) => FramesVouched(asked, frames) && ThenVouched(asked, then_)
    case Sending(frames, then_) => FramesVouched(asked, frames) && ThenVouched(asked, then_)
    case _ => true
  }

  predicate ConnVouched(k: Connection) {
    && (forall x <- k.asked :: Passes(x.1)) && (forall x <- k.subs :: x in k.asked)
    && FramesVouched(k.asked, k.wire) && PcVouched(k.asked, k.pc)
    && (forall f <- k.queue :: f.Live?)
  }

  predicate AllVouched(conns: seq<Connection>) { forall i | 0 <= i < |conns| :: ConnVouched(conns[i]) }

  predicate SnapVouched(subs: seq<seq<Sub>>, conns: seq<Connection>) {
    |subs| <= |conns| && forall i | 0 <= i < |subs| :: forall x <- subs[i] :: x in conns[i].asked
  }

  predicate LogVouched(log: seq<Broadcast>, conns: seq<Connection>) {
    forall b <- log :: Good(b.event) && SnapVouched(b.subs, conns)
  }

  predicate StoreVouched(store: seq<Stored>) { forall x <- store :: Good(x.event) }

  predicate Vouched(s: State) { AllVouched(s.conns) && LogVouched(s.log, s.conns) && StoreVouched(s.store) }

  // ----- steps -----

  /** The step touches one connection's own record, whose queries only grow. */
  predicate Touches(s: State, s': State, id: nat) {
    && id < |s.conns| == |s'.conns| && s'.conns == s.conns[id := s'.conns[id]] && s'.log == s.log
    && s.conns[id].asked <= s'.conns[id].asked
  }

  lemma TouchVouched(s: State, s': State, id: nat)
    requires Vouched(s) && Touches(s, s', id) && ConnVouched(s'.conns[id]) && StoreVouched(s'.store)
    ensures Vouched(s')
  {
    forall b | b in s'.log ensures Good(b.event) && SnapVouched(b.subs, s'.conns) {
      assert SnapVouched(b.subs, s.conns);
    }
  }

  lemma MoreAsked(asked: seq<Sub>, x: Sub, frames: seq<Frame>)
    requires FramesVouched(asked, frames)
    ensures FramesVouched(asked + [x], frames)
  {
    forall f | f in frames && f.Replayed? ensures AskedFor(asked + [x], f.sub, f.event) {
      assert FrameVouched(asked, f);
      var y :| y in asked && y.0 == f.sub && Passes(y.1) && Matches(y.1, f.event);
      assert y in asked + [x];
    }
  }

  lemma {:induction false} ReplayVouched(asked: seq<Sub>, sub: string, f: Filter, events: seq<Event>)
    requires (sub, f) in asked && Passes(f) && forall e <- events :: Good(e) && Matches(f, e)
    ensures FramesVouched(asked, Replay(sub, events))
  {
    if events != [] {
      assert events[0] in events;
      ReplayVouched(asked, sub, f, events[1..]);
    }
  }

  lemma RecallVouched(c: Config, k: Connection, store: seq<Stored>, sub: string, f: Filter, now: nat)
    requires ConnVouched(k) && k.pc == Inside(Recall(sub, f)) && StoreVouched(store)
    ensures var left := Evicted(c, store, now);
      && StoreVouched(left)
      && ConnVouched(k.(pc := Sending(Replay(sub, Query(left, f)) + [Eose(sub)], Remember(sub, f))))
  {
    var left := Evicted(c, store, now);
    EvictedIs(c, store, now);
    QueryAnswers(left, f);
    ReplayVouched(k.asked, sub, f, Query(left, f));
  }

  lemma BudgetVouched(c: Config, s: State, id: nat, e: Event, now: nat)
    requires id < |s.conns| && ConnVouched(s.conns[id]) && s.conns[id].pc == Inside(Budget(e, now))
    ensures var s' := Budgeted(c, s, id, e, now); ConnVouched(s'.conns[id]) && Touches(s, s', id) && s'.store == s.store
  {}

  lemma RegionVouches(c: Config, s: State, id: nat, r: Region, now: nat, order: seq<nat>)
    requires Vouched(s) && id < |s.conns| && s.conns[id].pc == Inside(r) && !r.Open? && !r.Push?
    ensures Vouched(Worked(c, s, id, r, now, order))
  {
    var k := s.conns[id];
    var s' := Worked(c, s, id, r, now, order);
    assert ConnVouched(k);
    if r.Recall? {
      RecallVouched(c, k, s.store, r.sub, r.filter, now);
    } else if r.Budget? {
      BudgetVouched(c, s, id, r.e, r.now);
    } else if r.Unsubscribe? {
      OtherSubsOf(k.subs, r.sub);
    }
    TouchVouched(s, s', id);
  }

  lemma OpenVouched(s: State, id: nat, e: Event, order: seq<nat>)
    requires Vouched(s) && id < |s.conns| && s.conns[id].pc == Inside(Open(e)) && IsWalk(order, s.conns)
    ensures Vouched(Opened(s, id, e, order))
  {
    var s' := Opened(s, id, e, order);
    assert ConnVouched(s.conns[id]);
    forall i | 0 <= i < |s.conns| ensures ConnVouched(s'.conns[i]) && s'.conns[i].asked == s.conns[i].asked {
      assert ConnVouched(s.conns[i]);
    }
    forall b | b in s'.log ensures Good(b.event) && SnapVouched(b.subs, s'.conns) {
      if b in s.log {
        assert SnapVouched(b.subs, s.conns);
      } else {
        assert b == Broadcast(e, AllSubs(s.conns));
      }
    }
  }

  lemma PushVouched(s: State, id: nat, at: nat, e: Event, todo: seq<Target>)
    requires Vouched(s) && id < |s.conns|
    ensures Vouched(Pushed(s, id, at, e, todo))
  {
    var d := if todo == [] then s else Deliver(s, todo[0].conn, Live(todo[0].sub, e, at));
    if d != s {
      var j := todo[0].conn;
      assert ConnVouched(s.conns[j]);
      TouchVouched(s, d, j);
    }
    assert ConnVouched(d.conns[id]);
    TouchVouched(d, Pushed(s, id, at, e, todo), id);
  }

  lemma CastVouched(s: State, id: nat, at: nat, e: Event, todo: seq<Target>)
    requires Vouched(s) && id < |s.conns|
    ensures Vouched(Cast(s, id, at, e, todo))
  {
    assert ConnVouched(s.conns[id]);
    TouchVouched(s, Cast(s, id, at, e, todo), id);
  }

  lemma WorkVouched(c: Config, s: State, id: nat, now: nat, order: seq<nat>)
    requires Vouched(s) && Enabled(s, Work(id, now, order))
    ensures Vouched(Do(c, s, Work(id, now, order)))
  {
    match s.conns[id].pc
    case Unlocking(_, _) =>
      assert ConnVouched(s.conns[id]);
      TouchVouched(s, Do(c, s, Work(id, now, order)), id);
    case Casting(at, e, todo) => CastVouched(s, id, at, e, todo);
    case Inside(r) =>
      if r.Open? {
        OpenVouched(s, id, r.e, order);
      } else if r.Push? {
        PushVouched(s, id, r.at, r.e, r.todo);
      } else {
        RegionVouches(c, s, id, r, now, order);
      }
  }

  lemma ReceiveVouched(s: State, id: nat, input: Input, now: nat)
    requires Vouched(s) && id < |s.conns| && s.conns[id].pc.Reading?
    ensures Vouched(Received(s, id, input, now))
  {
    var k := s.conns[id];
    assert ConnVouched(k);
    if input.Ask? && Passes(input.filter) {
      MoreAsked(k.asked, (input.sub, input.filter), k.wire);
    }
    TouchVouched(s, Received(s, id, input, now), id);
  }

  lemma SendVouched(s: State, id: nat, ok: bool)
    requires Vouched(s) && id < |s.conns| && s.conns[id].pc.Sending?
    ensures Vouched(Sent(s, id, ok))
  {
    var k := s.conns[id];
    assert ConnVouched(k);
    if k.pc.frames != [] {
      assert k.pc.frames[0] in k.pc.frames;
    }
    TouchVouched(s, Sent(s, id, ok), id);
  }

  lemma DrainVouched(s: State, id: nat, ok: bool)
    requires Vouched(s) && id < |s.conns| && s.conns[id].pc.Draining?
    ensures Vouched(Drained(s, id, ok))
  {
    var k := s.conns[id];
    assert ConnVouched(k);
    if k.queue != [] {
      assert k.queue[0] in k.queue;
    }
    TouchVouched(s, Drained(s, id, ok), id);
  }

  lemma AcquireVouched(s: State, t: Thread)
    requires Vouched(s) && WaitsFor(s, t).Some?
    ensures Vouched(Acquired(s, t))
  {
    if t.Conn? {
      assert ConnVouched(s.conns[t.id]);
      TouchVouched(s, Acquired(s, t), t.id);
    }
  }

  lemma ConnectVouched(s: State)
    requires Vouched(s)
    ensures Vouched(s.(conns := s.conns + [NEWCOMER]))
  {
    var s' := s.(conns := s.conns + [NEWCOMER]);
    assert ConnVouched(NEWCOMER);
    forall b | b in s'.log ensures Good(b.event) && SnapVouched(b.subs, s'.conns) {
      assert SnapVouched(b.subs, s.conns);
    }
  }

  lemma StepVouched(c: Config, s: State, a: Action)
    requires Vouched(s) && Enabled(s, a)
    ensures Vouched(Do(c, s, a))
  {
    match a
    case Connect => ConnectVouched(s);
    case Acquire(t) => AcquireVouched(s, t);
    case Work(id, now, order) => WorkVouched(c, s, id, now, order);
    case Handshake(id, ok) =>
      assert ConnVouched(s.conns[id]);
      TouchVouched(s, Do(c, s, a), id);
    case Drain(id, ok) => DrainVouched(s, id, ok);
    case Send(id, ok) => SendVouched(s, id, ok);
    case Receive(id, input, now) => ReceiveVouched(s, id, input, now);
    case Sweep(now) => EvictedIs(c, s.store, now);
    case Wake =>
  }

  lemma {:induction false} RunVouched(c: Config, run: seq<Action>)
    requires After(c, Init(), run).Some?
    ensures Vouched(After(c, Init(), run).value)
  {
    if run != [] {
      RunVouched(c, run[..|run| - 1]);
      StepVouched(c, After(c, Init(), run[..|run| - 1]).value, run[|run| - 1]);
    }
  }

  lemma {:induction false} LiveOfHolds(frames: seq<Frame>)
    ensures forall f <- frames | f.Live? :: f in LiveOf(frames)
  {
    if frames != [] {
      var n := |frames| - 1;
      LiveOfHolds(frames[..n]);
      assert frames == frames[..n] + [frames[n]];
    }
  }

  /** Every EVENT frame on any wire, replayed or live, shows a signed event of a
      kind the relay carries, under an id that connection asked for with a filter
      that passed the door and matches the event. */
  lemma EveryEventIsVouched(c: Config, run: seq<Action>, i: nat, f: Frame)
    requires After(c, Init(), run).Some? && i < |After(c, Init(), run).value.conns|
    requires f in After(c, Init(), run).value.conns[i].wire && (f.Live? || f.Replayed?)
    ensures Good(f.event) && AskedFor(After(c, Init(), run).value.conns[i].asked, f.sub, f.event)
  {
    RunVouched(c, run);
    WiresAreOrderedAndSound(c, run, i);
    var s := After(c, Init(), run).value;
    assert ConnVouched(s.conns[i]);
    if f.Live? {
      LiveOfHolds(s.conns[i].wire);
      LiveIsVouched(s, i, f);
    } else {
      assert FrameVouched(s.conns[i].asked, f);
    }
  }

  lemma LiveIsVouched(s: State, i: nat, f: Frame)
    requires Vouched(s) && i < |s.conns| && Sound(s.log, i, f)
    ensures Good(f.event) && AskedFor(s.conns[i].asked, f.sub, f.event)
  {
    var b := s.log[f.at];
    assert b in s.log;
    var filter :| (f.sub, filter) in SubsIn(b, i) && Matches(filter, f.event);
    assert SnapVouched(b.subs, s.conns);
    assert ConnVouched(s.conns[i]);
    assert (f.sub, filter) in s.conns[i].asked;
  }
}
