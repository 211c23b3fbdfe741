/** The relay's rules (`src/relay/mod.rs`): which events it holds, which a
    filter asks for, and how many it takes from one key. Event and filter are
    those of NIP-01. */
module RelayRules {
  import opened Text

  type Key = string

  /** An event as it arrives; whether its signature verifies is a fact about it.
      `tags` are the public keys of its `p` tags. */
  datatype Event = Event(id: string, author: Key, kind: nat, created: nat, tags: seq<Key>, genuine: bool)

  datatype Filter = Filter(
    kinds: seq<nat>,
    p: seq<Key>,
    authors: seq<Key>,
    ids: seq<string>,
    since: Option<nat>,
    until: Option<nat>,
    limit: Option<nat>)

  datatype Config = Config(ttl: nat, window: nat, rate: nat)

  const MAX_LIMIT := 100

  predicate Carried(kind: nat) { kind == 24133 || kind == 24135 }

  // ----- filters -----

  predicate MayMatchSigning(f: Filter) { f.kinds == [] || exists k <- f.kinds :: Carried(k) }

  /** `reject_reason` has nothing to say. */
  predicate Passes(f: Filter) {
    MayMatchSigning(f) ==> f.authors != [] || f.p != [] || f.ids != []
  }

  predicate TaggedFor(f: Filter, e: Event) { exists k <- f.p :: k in e.tags }

  predicate Matches(f: Filter, e: Event) {
    && (f.kinds != [] ==> e.kind in f.kinds)
    && (f.p != [] ==> TaggedFor(f, e))
    && (f.since.Some? ==> f.since.value <= e.created)
    && (f.until.Some? ==> e.created <= f.until.value)
  }

  /** Whether an event is within what the filter names. */
  predicate InScope(f: Filter, e: Event) {
    e.author in f.authors || e.id in f.ids || TaggedFor(f, e)
  }

  /** Some moment after the epoch lies within the filter's bounds. */
  predicate SomeTime(f: Filter) {
    f.until.Some? ==> 0 < f.until.value && (f.since.Some? ==> f.since.value <= f.until.value)
  }

  /** The store lets such an event in at some moment. */
  ghost predicate Admissible(c: Config, e: Event) { exists now :: Admission(c, e, now).None? }

  function Longer(names: seq<string>): (s: string)
    ensures s !in names
    ensures forall n <- names :: |n| < |s|
  {
    if names == [] then "x"
    else
      var rest := Longer(names[1..]);
      if |names[0]| < |rest| then rest else names[0] + "x"
  }

  ghost predicate KeepsToItsScope(c: Config, f: Filter) {
    forall e: Event | Admissible(c, e) && Matches(f, e) :: InScope(f, e)
  }

  /** Whether the filter can match anything the store may hold. */
  predicate CanMatch(c: Config, f: Filter) { 0 < c.window && MayMatchSigning(f) && SomeTime(f) }

  lemma AdmissibleMeans(c: Config, e: Event)
    ensures Admissible(c, e) <==> e.genuine && Carried(e.kind) && 0 < e.created && 0 < c.window
  {
    if e.genuine && Carried(e.kind) && 0 < e.created && 0 < c.window {
      assert Admission(c, e, e.created).None?;
    }
  }

  /** An event nobody named, for a filter that can match one. */
  lemma Stranger(c: Config, f: Filter) returns (e: Event)
    requires CanMatch(c, f)
    ensures Admissible(c, e) && e.tags == [] && e.author !in f.authors && e.id !in f.ids
    ensures f.p == [] ==> Matches(f, e)
  {
    var kind := 24133;
    if f.kinds != [] {
      kind :| kind in f.kinds && Carried(kind);
    }
    var created :=
      if f.until.Some? then f.until.value else if f.since.Some? && 0 < f.since.value then f.since.value else 1;
    e := Event(Longer(f.ids), Longer(f.authors), kind, created, [], true);
    AdmissibleMeans(c, e);
  }

  lemma MatchedCanMatch(c: Config, f: Filter, e: Event)
    requires Admissible(c, e) && Matches(f, e)
    ensures CanMatch(c, f)
  {
    AdmissibleMeans(c, e);
  }

  /** The door is there so that nobody reads traffic they did not name, and lets
      in whatever names something or asks for other kinds only. Of what the store
      may hold, a filter matches only what it names exactly when it names tags, or
      can match nothing at all: authors and ids open the door and then are not
      looked at. */
  lemma TheDoorScopes(c: Config, f: Filter)
    ensures Passes(f) <==>
      || f.authors != [] || f.p != [] || f.ids != []
      || (f.kinds != [] && 24133 !in f.kinds && 24135 !in f.kinds)
    ensures KeepsToItsScope(c, f) <==> f.p != [] || !CanMatch(c, f)
  {
    if f.p == [] && CanMatch(c, f) {
      var e := Stranger(c, f);
      assert !InScope(f, e);
    } else {
      forall e: Event | Admissible(c, e) && Matches(f, e) ensures InScope(f, e) {
        MatchedCanMatch(c, f, e);
      }
    }
  }

  // ----- the store -----

  datatype Rejected = Kind(kind: nat) | Timestamp | Signature | Duplicate

  datatype Stored = Stored(event: Event, received: nat)

  function Admission(c: Config, e: Event, now: nat): Option<Rejected> {
    if !e.genuine then Some(Signature)
    else if !Carried(e.kind) then Some(Kind(e.kind))
    else if !(now - c.window < e.created && 0 < e.created && e.created < now + c.window) then Some(Timestamp)
    else None
  }

  /** What may be held: signed, of a carried kind, made after the epoch and
      strictly less than the window before or after the clock. A wrong signature
      is told first, then a wrong kind. */
  lemma AdmissionMeans(c: Config, e: Event, now: nat)
    ensures Admission(c, e, now).None? <==>
      && e.genuine && e.kind in {24133, 24135}
      && 0 < e.created && e.created < now + c.window && now < e.created + c.window
    ensures Admission(c, e, now) == Some(Signature) <==> !e.genuine
    ensures Admission(c, e, now) == Some(Kind(e.kind)) <==> e.genuine && e.kind !in {24133, 24135}
    ensures Admission(c, e, now) != Some(Duplicate)
  {}

  predicate Holds(events: seq<Stored>, id: string) { exists s <- events :: s.event.id == id }

  function InsertVerdict(c: Config, events: seq<Stored>, e: Event, now: nat): Option<Rejected> {
    if Admission(c, e, now).Some? then Admission(c, e, now)
    else if Holds(events, e.id) then Some(Duplicate)
    else None
  }

  function Inserted(c: Config, events: seq<Stored>, e: Event, now: nat): seq<Stored> {
    if InsertVerdict(c, events, e, now).None? then events + [Stored(e, now)] else events
  }

  /** Within its time to live, by a difference that stops at zero. */
  predicate Fresh(c: Config, s: Stored, now: nat) { (if now < s.received then 0 else now - s.received) < c.ttl }

  function Evicted(c: Config, events: seq<Stored>, now: nat): seq<Stored> {
    if events == [] then []
    else (if Fresh(c, events[0], now) then [events[0]] else []) + Evicted(c, events[1..], now)
  }

  function Matching(events: seq<Stored>, f: Filter): seq<Event> {
    if events == [] then []
    else (if Matches(f, events[0].event) then [events[0].event] else []) + Matching(events[1..], f)
  }

  /** A stable sort, newest first. */
  function InsertNewest(e: Event, es: seq<Event>): seq<Event> {
    if es == [] then [e]
    else if e.created >= es[0].created then [e] + es
    else [es[0]] + InsertNewest(e, es[1..])
  }

  function NewestFirst(es: seq<Event>): seq<Event> {
    if es == [] then [] else InsertNewest(es[0], NewestFirst(es[1..]))
  }

  function Limit(f: Filter): nat {
    if f.limit.Some? && f.limit.value < MAX_LIMIT then f.limit.value else MAX_LIMIT
  }

  function Query(events: seq<Stored>, f: Filter): seq<Event> {
    var matched := NewestFirst(Matching(events, f));
    if |matched| > Limit(f) then matched[..Limit(f)] else matched
  }

  class EventStore {
    var events: seq<Stored>
    const config: Config

    constructor (config: Config)
      ensures this.config == config && events == []
    {
      this.config := config;
      events := [];
    }

    method Insert(e: Event, now: nat) returns (verdict: Option<Rejected>)
      modifies this
      ensures verdict == InsertVerdict(config, old(events), e, now)
      ensures verdict.None? <==>
        && e.genuine && e.kind in {24133, 24135}
        && 0 < e.created && e.created < now + config.window && now < e.created + config.window
        && forall i | 0 <= i < |old(events)| :: old(events)[i].event.id != e.id
      ensures events == if verdict.None? then old(events) + [Stored(e, now)] else old(events)
    {
      AdmissionMeans(config, e, now);
      verdict := Admission(config, e, now);
      if verdict.Some? {
        return;
      }
      for i := 0 to |events|
        invariant events == old(events)
        invariant forall k | 0 <= k < i :: events[k].event.id != e.id
      {
        if events[i].event.id == e.id {
          return Some(Duplicate);
        }
      }
      events := events + [Stored(e, now)];
    }

    method Evict(now: nat)
      modifies this
      ensures events == Evicted(config, old(events), now)
      ensures forall s :: s in events <==> s in old(events) && 0 < config.ttl && now < s.received + config.ttl
    {
      EvictedIs(config, events, now);
      var kept := [];
      for i := 0 to |events|
        invariant events == old(events)
        invariant kept + Evicted(config, events[i..], now) == Evicted(config, events, now)
      {
        assert events[i..][0] == events[i] && events[i..][1..] == events[i + 1..];
        if Fresh(config, events[i], now) {
          SeqAssociative(kept, [events[i]], Evicted(config, events[i + 1..], now));
          kept := kept + [events[i]];
        } else {
          assert [] + Evicted(config, events[i + 1..], now) == Evicted(config, events[i + 1..], now);
        }
      }
      events := kept;
    }
  }

  // ----- what the store keeps -----

  /** Signed events of the carried kinds, each id once. */
  predicate Proper(events: seq<Stored>) {
    && (forall i | 0 <= i < |events| :: events[i].event.genuine && Carried(events[i].event.kind))
    && (forall i, j | 0 <= i < j < |events| :: events[i].event.id != events[j].event.id)
  }

  /** What is evicted is what has been held for the time to live or longer. */
  lemma {:induction false} EvictedIs(c: Config, events: seq<Stored>, now: nat)
    ensures forall s :: s in Evicted(c, events, now) <==> s in events && 0 < c.ttl && now < s.received + c.ttl
    ensures Proper(events) ==> Proper(Evicted(c, events, now))
  {
    if events != [] {
      EvictedIs(c, events[1..], now);
      assert events == [events[0]] + events[1..];
      var rest := Evicted(c, events[1..], now);
      forall i | 0 <= i < |rest| && Proper(events) ensures rest[i].event.id != events[0].event.id {
        assert rest[i] in rest;
      }
    }
  }

  datatype StoreCall = Save(e: Event, now: nat) | Expire(now: nat)

  function AfterCalls(c: Config, events: seq<Stored>, calls: seq<StoreCall>): seq<Stored>
    decreases |calls|
  {
    if calls == [] then events
    else
      match calls[0]
      case Save(e, now) => AfterCalls(c, Inserted(c, events, e, now), calls[1..])
      case Expire(now) => AfterCalls(c, Evicted(c, events, now), calls[1..])
  }

  /** Whatever is asked of it, the store never holds an unsigned event, another
      kind, or the same id twice. */
  lemma {:induction false} StoreStaysProper(c: Config, events: seq<Stored>, calls: seq<StoreCall>)
    requires Proper(events)
    ensures Proper(AfterCalls(c, events, calls))
    decreases |calls|
  {
    if calls != [] {
      match calls[0]
      case Save(e, now) =>
        assert Proper(Inserted(c, events, e, now));
        StoreStaysProper(c, Inserted(c, events, e, now), calls[1..]);
      case Expire(now) =>
        EvictedIs(c, events, now);
        StoreStaysProper(c, Evicted(c, events, now), calls[1..]);
    }
  }

  // ----- what a query answers -----

  predicate Newest(es: seq<Event>) { forall i, j | 0 <= i < j < |es| :: es[i].created >= es[j].created }

  lemma NewestCons(e: Event, es: seq<Event>)
    requires Newest(es) && forall x <- es :: e.created >= x.created
    ensures Newest([e] + es)
  {}

  lemma {:induction false} InsertNewestHolds(e: Event, es: seq<Event>)
    ensures multiset(InsertNewest(e, es)) == multiset(es) + multiset{e}
    ensures forall x :: x in InsertNewest(e, es) <==> x == e || x in es
  {
    if es != [] {
      assert es == [es[0]] + es[1..];
      InsertNewestHolds(e, es[1..]);
    }
  }

  lemma {:induction false} InsertNewestIs(e: Event, es: seq<Event>)
    requires Newest(es)
    ensures Newest(InsertNewest(e, es))
  {
    if es == [] {
    } else if e.created >= es[0].created {
      NewestCons(e, es);
    } else {
      InsertNewestIs(e, es[1..]);
      InsertNewestHolds(e, es[1..]);
      NewestCons(es[0], InsertNewest(e, es[1..]));
    }
  }

  lemma {:induction false} NewestFirstIs(es: seq<Event>)
    ensures Newest(NewestFirst(es)) && multiset(NewestFirst(es)) == multiset(es)
  {
    if es != [] {
      NewestFirstIs(es[1..]);
      InsertNewestIs(es[0], NewestFirst(es[1..]));
      InsertNewestHolds(es[0], NewestFirst(es[1..]));
      assert es == [es[0]] + es[1..];
    }
  }

  lemma {:induction false} MatchingIs(events: seq<Stored>, f: Filter)
    ensures forall e :: e in Matching(events, f) <==> Matches(f, e) && exists s <- events :: s.event == e
  {
    if events != [] {
      MatchingIs(events[1..], f);
      assert events == [events[0]] + events[1..];
    }
  }

  /** The store holds the event, and it is what the filter asks for: of a kind
      and with a tag it lists, if it lists any, and within its times, both ends
      included. */
  predicate HeldMatch(events: seq<Stored>, f: Filter, e: Event) {
    && (exists s <- events :: s.event == e)
    && (f.kinds == [] || e.kind in f.kinds)
    && (f.p == [] || exists k <- f.p :: k in e.tags)
    && (f.since.Some? ==> f.since.value <= e.created)
    && (f.until.Some? ==> e.created <= f.until.value)
  }

  lemma HeldMatchMeans(events: seq<Stored>, f: Filter, e: Event)
    ensures HeldMatch(events, f, e) <==> Matches(f, e) && exists s <- events :: s.event == e
  {}

  function Sorted(events: seq<Stored>, f: Filter): seq<Event> { NewestFirst(Matching(events, f)) }

  lemma SortedHolds(events: seq<Stored>, f: Filter, e: Event)
    ensures e in Sorted(events, f) <==> HeldMatch(events, f, e)
  {
    NewestFirstIs(Matching(events, f));
    MatchingIs(events, f);
    assert e in multiset(Sorted(events, f)) <==> e in multiset(Matching(events, f));
    HeldMatchMeans(events, f, e);
  }

  lemma CutLeavesOlder(all: seq<Event>, n: nat, e: Event)
    requires Newest(all) && n <= |all| && e in all && e !in all[..n]
    ensures n < |all| && forall a <- all[..n] :: a.created >= e.created
  {
    assert all == all[..n] + all[n..];
    var k :| 0 <= k < |all[n..]| && all[n..][k] == e;
    assert all[n + k] == e;
  }

  /** The answer is as long as the relay or the filter allows. */
  predicate Full(f: Filter, n: nat) { n == 100 || (f.limit.Some? && n == f.limit.value) }

  /** A query answers with held, matching events, newest first, a hundred at most
      and no more than asked for. One it leaves out is no newer than any it gives,
      and it leaves none out unless it gave as many as it may. */
  lemma QueryAnswers(events: seq<Stored>, f: Filter)
    ensures var answer := Query(events, f);
      && Newest(answer) && |answer| <= 100 && (f.limit.Some? ==> |answer| <= f.limit.value)
      && (forall e <- answer :: HeldMatch(events, f, e))
      && (forall e | HeldMatch(events, f, e) && e !in answer ::
            Full(f, |answer|) && forall a <- answer :: a.created >= e.created)
  {
    var all, answer := Sorted(events, f), Query(events, f);
    NewestFirstIs(Matching(events, f));
    assert answer == all[..|answer|];
    forall e | e in answer ensures HeldMatch(events, f, e) {
      SortedHolds(events, f, e);
    }
    forall e | HeldMatch(events, f, e) && e !in answer
      ensures Full(f, |answer|) && forall a <- answer :: a.created >= e.created
    {
      SortedHolds(events, f, e);
      CutLeavesOlder(all, |answer|, e);
    }
  }

  predicate IdsDiffer(es: seq<Event>) { forall i, j | 0 <= i < j < |es| :: es[i].id != es[j].id }

  lemma {:induction false} MatchingIdsDiffer(events: seq<Stored>, f: Filter)
    requires Proper(events)
    ensures IdsDiffer(Matching(events, f))
    ensures forall e <- Matching(events, f) :: exists s <- events :: s.event == e
  {
    if events != [] {
      var rest := Matching(events[1..], f);
      MatchingIdsDiffer(events[1..], f);
      forall i | 0 <= i < |rest| ensures rest[i].id != events[0].event.id {
        assert rest[i] in rest;
      }
    }
  }

  lemma {:induction false} InsertKeepsIds(e: Event, es: seq<Event>)
    requires IdsDiffer(es) && forall x <- es :: x.id != e.id
    ensures IdsDiffer(InsertNewest(e, es))
  {
    if es != [] && e.created < es[0].created {
      InsertKeepsIds(e, es[1..]);
      InsertNewestHolds(e, es[1..]);
      var rest := InsertNewest(e, es[1..]);
      forall i | 0 <= i < |rest| ensures rest[i].id != es[0].id {
        assert rest[i] in rest;
      }
    }
  }

  lemma {:induction false} SortKeepsIds(es: seq<Event>)
    requires IdsDiffer(es)
    ensures IdsDiffer(NewestFirst(es))
    ensures forall e :: e in NewestFirst(es) <==> e in es
  {
    if es != [] {
      SortKeepsIds(es[1..]);
      InsertKeepsIds(es[0], NewestFirst(es[1..]));
      InsertNewestHolds(es[0], NewestFirst(es[1..]));
      assert es == [es[0]] + es[1..];
    }
  }

  /** No event is answered twice. */
  lemma AnswersDiffer(events: seq<Stored>, f: Filter)
    requires Proper(events)
    ensures IdsDiffer(Query(events, f))
  {
    MatchingIdsDiffer(events, f);
    SortKeepsIds(Matching(events, f));
  }

  /** The events of one moment, in order. */
  function AtMoment(es: seq<Event>, t: nat): seq<Event> {
    if es == [] then [] else (if es[0].created == t then [es[0]] else []) + AtMoment(es[1..], t)
  }

  lemma {:induction false} InsertAtMoment(e: Event, es: seq<Event>, t: nat)
    ensures AtMoment(InsertNewest(e, es), t) == AtMoment([e] + es, t)
  {
    if es != [] && e.created < es[0].created {
      InsertAtMoment(e, es[1..], t);
      assert ([e] + es[1..])[1..] == es[1..] && ([e] + es)[1..] == es;
    }
  }

  /** Events of one moment are answered in the order they were held in. */
  lemma {:induction false} TiesKeepOrder(es: seq<Event>, t: nat)
    ensures AtMoment(NewestFirst(es), t) == AtMoment(es, t)
  {
    if es != [] {
      TiesKeepOrder(es[1..], t);
      InsertAtMoment(es[0], NewestFirst(es[1..]), t);
      assert ([es[0]] + NewestFirst(es[1..]))[1..] == NewestFirst(es[1..]);
    }
  }

  // ----- the budget -----

  function Dropped(budget: seq<nat>, now: nat): seq<nat> {
    if budget != [] && budget[0] < (if now < 60 then 0 else now - 60) then Dropped(budget[1..], now) else budget
  }

  predicate Admits(capacity: nat, budget: seq<nat>, now: nat) { |Dropped(budget, now)| < capacity }

  function Spent(capacity: nat, budget: seq<nat>, now: nat): seq<nat> {
    if Admits(capacity, budget, now) then Dropped(budget, now) + [now] else Dropped(budget, now)
  }

  class RateLimiter {
    var budget: seq<nat>
    const capacity: nat

    constructor (capacity: nat)
      ensures this.capacity == capacity && budget == []
    {
      this.capacity := capacity;
      budget := [];
    }

    method Admit(now: nat) returns (ok: bool)
      modifies this
      ensures ok == Admits(capacity, old(budget), now)
      ensures budget == Spent(capacity, old(budget), now)
    {
      var start := if now < 60 then 0 else now - 60;
      while budget != [] && budget[0] < start
        invariant Dropped(budget, now) == Dropped(old(budget), now)
        decreases |budget|
      {
        budget := budget[1..];
      }
      ok := |budget| < capacity;
      if ok {
        budget := budget + [now];
      }
    }
  }

  /** The budget after a run of calls, and every time ever admitted. */
  function BudgetAfter(capacity: nat, clocks: seq<nat>): seq<nat> {
    if clocks == [] then []
    else Spent(capacity, BudgetAfter(capacity, clocks[..|clocks| - 1]), clocks[|clocks| - 1])
  }

  function AdmittedTimes(capacity: nat, clocks: seq<nat>): seq<nat> {
    if clocks == [] then []
    else
      var before, now := clocks[..|clocks| - 1], clocks[|clocks| - 1];
      AdmittedTimes(capacity, before) + (if Admits(capacity, BudgetAfter(capacity, before), now) then [now] else [])
  }

  lemma {:induction false} DroppedIs(budget: seq<nat>, now: nat)
    ensures |Dropped(budget, now)| <= |budget|
    ensures Dropped(budget, now) == budget[|budget| - |Dropped(budget, now)|..]
    ensures forall i | 0 <= i < |budget| - |Dropped(budget, now)| :: budget[i] + 60 < now
    ensures Dropped(budget, now) != [] ==> Dropped(budget, now)[0] + 60 >= now
  {
    if budget != [] && budget[0] < (if now < 60 then 0 else now - 60) {
      DroppedIs(budget[1..], now);
    }
  }

  predicate Suffix(b: seq<nat>, a: seq<nat>) { |b| <= |a| && b == a[|a| - |b|..] }

  predicate Expired(times: seq<nat>, now: nat) { forall t <- times :: t + 60 < now }

  /** What the budget remembers of the admissions, by a clock that has shown
      `top`: the latest, and every one of the minute before that. */
  predicate Remembers(capacity: nat, budget: seq<nat>, admitted: seq<nat>, top: nat) {
    Suffix(budget, admitted) && |budget| <= capacity && Expired(admitted[..|admitted| - |budget|], top)
  }

  function Later(a: nat, b: nat): nat { if a < b then b else a }

  lemma DropRemembers(capacity: nat, budget: seq<nat>, admitted: seq<nat>, top: nat, now: nat)
    requires Remembers(capacity, budget, admitted, top)
    ensures Remembers(capacity, Dropped(budget, now), admitted, Later(top, now))
  {
    DroppedIs(budget, now);
    var kept := Dropped(budget, now);
    var gone, going := |admitted| - |budget|, |budget| - |kept|;
    assert admitted[gone..][going..] == admitted[gone + going..];
    assert admitted[..gone + going] == admitted[..gone] + budget[..going];
    assert Expired(budget[..going], now);
  }

  lemma AddRemembers(capacity: nat, budget: seq<nat>, admitted: seq<nat>, top: nat, now: nat)
    requires Remembers(capacity, budget, admitted, top) && |budget| < capacity
    ensures Remembers(capacity, budget + [now], admitted + [now], top)
  {
    var gone := |admitted| - |budget|;
    assert (admitted + [now])[gone..] == admitted[gone..] + [now];
    assert (admitted + [now])[..gone] == admitted[..gone];
  }

  lemma StepRemembers(capacity: nat, budget: seq<nat>, admitted: seq<nat>, top: nat, now: nat)
    requires Remembers(capacity, budget, admitted, top)
    ensures Remembers(capacity, Spent(capacity, budget, now),
                      admitted + (if Admits(capacity, budget, now) then [now] else []), Later(top, now))
  {
    DropRemembers(capacity, budget, admitted, top, now);
    if Admits(capacity, budget, now) {
      AddRemembers(capacity, Dropped(budget, now), admitted, Later(top, now), now);
    } else {
      assert admitted + [] == admitted;
    }
  }

  /** The latest moment the clock has shown. */
  function Top(clocks: seq<nat>): nat {
    if clocks == [] then 0 else Later(Top(clocks[..|clocks| - 1]), clocks[|clocks| - 1])
  }

  lemma {:induction false} RunRemembers(capacity: nat, clocks: seq<nat>)
    ensures Remembers(capacity, BudgetAfter(capacity, clocks), AdmittedTimes(capacity, clocks), Top(clocks))
  {
    if clocks != [] {
      var before, now := clocks[..|clocks| - 1], clocks[|clocks| - 1];
      RunRemembers(capacity, before);
      StepRemembers(capacity, BudgetAfter(capacity, before), AdmittedTimes(capacity, before), Top(before), now);
    }
  }

  /** No reading is more than `d` seconds behind an earlier one. */
  predicate Within(clocks: seq<nat>, d: nat) { forall i, j | 0 <= i < j < |clocks| :: clocks[i] <= clocks[j] + d }

  lemma {:induction false} TopIsRead(clocks: seq<nat>)
    requires clocks != []
    ensures Top(clocks) in clocks
  {
    if |clocks| > 1 {
      TopIsRead(clocks[..|clocks| - 1]);
    }
  }

  lemma TopWithin(clocks: seq<nat>, d: nat)
    requires clocks != [] && Within(clocks, d)
    ensures Top(clocks) <= clocks[|clocks| - 1] + d
  {
    TopIsRead(clocks);
  }

  /** Readings that fall at most `d` seconds behind let no more than the capacity
      through in any `60 - d` seconds. */
  lemma LastAdmission(capacity: nat, budget: seq<nat>, admitted: seq<nat>, top: nat, i: nat)
    requires Remembers(capacity, budget, admitted, top) && i + capacity < |admitted|
    ensures admitted[i] + 60 < top
  {
    var older := admitted[..|admitted| - |budget|];
    assert older[i] in older;
  }

  lemma {:induction false} NoFloodPasses(capacity: nat, clocks: seq<nat>, d: nat, i: nat)
    requires Within(clocks, d) && i + capacity < |AdmittedTimes(capacity, clocks)|
    ensures AdmittedTimes(capacity, clocks)[i] + 60 < AdmittedTimes(capacity, clocks)[i + capacity] + d
  {
    var before, now := clocks[..|clocks| - 1], clocks[|clocks| - 1];
    if i + capacity < |AdmittedTimes(capacity, before)| {
      NoFloodPasses(capacity, before, d, i);
    } else {
      var admitted := AdmittedTimes(capacity, clocks);
      assert i + capacity == |admitted| - 1 && admitted[|admitted| - 1] == now;
      RunRemembers(capacity, clocks);
      LastAdmission(capacity, BudgetAfter(capacity, clocks), admitted, Top(clocks), i);
      TopWithin(clocks, d);
    }
  }

  ghost predicate HoldsForSixty(d: nat) {
    forall capacity: nat, clocks: seq<nat>, i: nat
      | Within(clocks, d) && i + capacity < |AdmittedTimes(capacity, clocks)| ::
      AdmittedTimes(capacity, clocks)[i] + 60 < AdmittedTimes(capacity, clocks)[i + capacity]
  }

  lemma AdmittedSnoc(capacity: nat, clocks: seq<nat>, now: nat)
    ensures BudgetAfter(capacity, clocks + [now]) == Spent(capacity, BudgetAfter(capacity, clocks), now)
    ensures AdmittedTimes(capacity, clocks + [now])
            == AdmittedTimes(capacity, clocks)
               + (if Admits(capacity, BudgetAfter(capacity, clocks), now) then [now] else [])
  {
    assert (clocks + [now])[..|clocks|] == clocks;
  }

  /** Two at 0, one a minute later, and one by a reading a second older. */
  lemma TwoAtOnce()
    ensures BudgetAfter(2, [0, 0]) == [0, 0] && AdmittedTimes(2, [0, 0]) == [0, 0]
  {
    var none: seq<nat> := [];
    AdmittedSnoc(2, none, 0);
    assert none + [0] == [0];
    AdmittedSnoc(2, [0], 0);
    assert [0] + [0] == [0, 0];
  }

  lemma AStepBackLetsOneMore()
    ensures Within([0, 0, 61, 60], 1) && AdmittedTimes(2, [0, 0, 61, 60]) == [0, 0, 61, 60]
  {
    TwoAtOnce();
    DroppedAll([0, 0], 61);
    AdmittedSnoc(2, [0, 0], 61);
    assert [0, 0] + [61] == [0, 0, 61] && [] + [61] == [61];
    AdmittedSnoc(2, [0, 0, 61], 60);
    assert [0, 0, 61] + [60] == [0, 0, 61, 60];
  }

  lemma DroppedAll(two: seq<nat>, now: nat)
    requires |two| == 2 && two[0] + 60 < now && two[1] + 60 < now
    ensures Dropped(two, now) == []
  {
    assert Dropped(two[1..], now) == Dropped(two[1..][1..], now);
  }

  /** The budget is one of any sixty seconds exactly for clocks that never step
      back. */
  lemma SixtySecondsNeedTheClock(d: nat)
    ensures HoldsForSixty(d) <==> d == 0
  {
    if d == 0 {
      forall capacity: nat, clocks: seq<nat>, i: nat
        | Within(clocks, d) && i + capacity < |AdmittedTimes(capacity, clocks)|
        ensures AdmittedTimes(capacity, clocks)[i] + 60 < AdmittedTimes(capacity, clocks)[i + capacity]
      {
        NoFloodPasses(capacity, clocks, d, i);
      }
    } else {
      AStepBackLetsOneMore();
      var clocks := [0, 0, 61, 60];
      assert Within(clocks, d) && !(AdmittedTimes(2, clocks)[1] + 60 < AdmittedTimes(2, clocks)[1 + 2]);
    }
  }

  /** The last `capacity` admissions lie within the sixty seconds before; a
      capacity of nothing is always used up. */
  predicate UsedUp(capacity: nat, admitted: seq<nat>, now: nat) {
    capacity == 0 || (|admitted| >= capacity && admitted[|admitted| - capacity] + 60 >= now)
  }

  /** A call is refused only when the capacity was admitted within the last
      sixty seconds; with a clock that has not stepped back, whenever it was. */
  lemma RefusalMeansSpent(capacity: nat, clocks: seq<nat>, now: nat)
    ensures var spent := UsedUp(capacity, AdmittedTimes(capacity, clocks), now);
      && (!Admits(capacity, BudgetAfter(capacity, clocks), now) ==> spent)
      && (Top(clocks) <= now && spent ==> !Admits(capacity, BudgetAfter(capacity, clocks), now))
  {
    RunRemembers(capacity, clocks);
    FullMeansSpent(capacity, BudgetAfter(capacity, clocks), AdmittedTimes(capacity, clocks), Top(clocks), now);
  }

  lemma FullMeansSpent(capacity: nat, budget: seq<nat>, admitted: seq<nat>, top: nat, now: nat)
    requires Remembers(capacity, budget, admitted, top)
    ensures var spent := UsedUp(capacity, admitted, now);
      && (!Admits(capacity, budget, now) ==> spent)
      && (top <= now && spent ==> !Admits(capacity, budget, now))
  {
    DroppedIs(budget, now);
    DropRemembers(capacity, budget, admitted, top, now);
    var kept := Dropped(budget, now);
    var older := admitted[..|admitted| - |kept|];
    if capacity == 0 {
    } else if |kept| == capacity {
      assert kept[0] == admitted[|admitted| - capacity];
    } else if |admitted| >= capacity {
      assert older[|admitted| - capacity] in older;
    }
  }
}
