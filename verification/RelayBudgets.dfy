/** The budget of one key over whole runs of the relay: the calls its events make
    of the limiter, in the order the threads reach it, whatever connection they
    come by. */
module RelayBudgets {
  import opened Text
  import opened RelayRules
  import opened Relay

  /** The reading of the clock this step spends against the key's budget. */
  function Reading(s: State, a: Action, key: Key): seq<nat> {
    if a.Work? && a.id < |s.conns| && s.conns[a.id].pc.Inside? && s.conns[a.id].pc.r.Budget?
       && s.conns[a.id].pc.r.e.author == key
    then [s.conns[a.id].pc.r.now]
    else []
  }

  /** The same, for a step that lets its event on to the store. */
  function LetOn(c: Config, s: State, a: Action, key: Key): seq<nat>
    requires Enabled(s, a)
  {
    if Reading(s, a, key) != [] && Do(c, s, a).conns[a.id].pc.Waiting? then Reading(s, a, key) else []
  }

  function Readings(c: Config, run: seq<Action>, key: Key): seq<nat> {
    if run == [] then []
    else
      var front, a := run[..|run| - 1], run[|run| - 1];
      var s := After(c, Init(), front);
      Readings(c, front, key) + (if s.Some? then Reading(s.value, a, key) else [])
  }

  function LetOnTimes(c: Config, run: seq<Action>, key: Key): seq<nat> {
    if run == [] then []
    else
      var front, a := run[..|run| - 1], run[|run| - 1];
      var s := After(c, Init(), front);
      LetOnTimes(c, front, key) + (if s.Some? && Enabled(s.value, a) then LetOn(c, s.value, a, key) else [])
  }

  lemma StepSpends(c: Config, s: State, a: Action, key: Key)
    requires Enabled(s, a)
    ensures var call, budget := Reading(s, a, key), BudgetOf(s, key);
      && BudgetOf(Do(c, s, a), key) == (if call == [] then budget else Spent(c.rate, budget, call[0]))
      && LetOn(c, s, a, key) == (if call != [] && Admits(c.rate, budget, call[0]) then call else [])
  {}

  /** The limiter of a key has seen exactly its calls, in their order, and let on
      what it admits of them. */
  lemma {:induction false} BudgetsFollowTheReadings(c: Config, run: seq<Action>, key: Key)
    requires After(c, Init(), run).Some?
    ensures BudgetOf(After(c, Init(), run).value, key) == BudgetAfter(c.rate, Readings(c, run, key))
    ensures LetOnTimes(c, run, key) == AdmittedTimes(c.rate, Readings(c, run, key))
  {
    if run != [] {
      var front, a := run[..|run| - 1], run[|run| - 1];
      var s := After(c, Init(), front).value;
      BudgetsFollowTheReadings(c, front, key);
      StepSpends(c, s, a, key);
      var calls := Readings(c, front, key);
      if Reading(s, a, key) == [] {
        assert calls + [] == calls && LetOnTimes(c, front, key) + [] == LetOnTimes(c, front, key);
      } else {
        AdmittedSnoc(c.rate, calls, Reading(s, a, key)[0]);
      }
    }
  }

  /** On every run of the relay, over every reconnect: if the key's readings of
      the clock fall at most `d` seconds behind one another, no more of its events
      than the rate reach the store in any `60 - d` seconds. */
  lemma NoFloodReachesTheStore(c: Config, run: seq<Action>, key: Key, d: nat, i: nat)
    requires After(c, Init(), run).Some? && Within(Readings(c, run, key), d)
    requires i + c.rate < |LetOnTimes(c, run, key)|
    ensures LetOnTimes(c, run, key)[i] + 60 < LetOnTimes(c, run, key)[i + c.rate] + d
  {
    BudgetsFollowTheReadings(c, run, key);
    AdmittedAreSpread(c.rate, Readings(c, run, key), LetOnTimes(c, run, key), d, i);
  }

  lemma AdmittedAreSpread(rate: nat, readings: seq<nat>, times: seq<nat>, d: nat, i: nat)
    requires times == AdmittedTimes(rate, readings) && Within(readings, d) && i + rate < |times|
    ensures times[i] + 60 < times[i + rate] + d
  {
    NoFloodPasses(rate, readings, d, i);
  }

  /** And an event is answered as rate-limited only when the rate's worth of that
      key's events passed within the sixty seconds before it. */
  lemma RefusedWhenSpent(c: Config, run: seq<Action>, s: State, a: Action, key: Key)
    requires After(c, Init(), run) == Some(s) && Enabled(s, a) && Reading(s, a, key) != []
    ensures var now := Reading(s, a, key)[0];
      var spent := UsedUp(c.rate, LetOnTimes(c, run, key), now);
      && (LetOn(c, s, a, key) == [] ==> spent)
      && (Top(Readings(c, run, key)) <= now && spent ==> LetOn(c, s, a, key) == [])
  {
    BudgetsFollowTheReadings(c, run, key);
    StepSpends(c, s, a, key);
    RefusalMeansSpent(c.rate, Readings(c, run, key), Reading(s, a, key)[0]);
  }
}
