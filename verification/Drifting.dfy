/** What `kuma diff` says convergence will do (`drift` in
    `src/overrides.rs`), against what the passes do. */
module Drifting {
  import opened Text
  import opened Order
  import opened KeyFiles
  import opened Convergence
  import opened Declaration
  import opened OwnershipRecord
  import opened OverrideStore

  datatype Change = Add | Remove

  datatype Drift = Drift(app: string, group: string, key: string, change: Change)

  type Overrides = map<string, AppOverride>

  type LiveKeys = map<(string, string), string>

  /** A live file as a table; a key written twice counts as written last. */
  function Table(entries: seq<Entry>): LiveKeys {
    if entries == [] then map[]
    else map[(entries[0].group, entries[0].key) := entries[0].value] + Table(entries[1..])
  }

  lemma {:induction false} TableIsAsked(entries: seq<Entry>, group: string, key: string)
    ensures (group, key) in Table(entries) <==> Asked(entries, group, key).Some?
    ensures (group, key) in Table(entries) ==> Asked(entries, group, key) == Some(Table(entries)[(group, key)])
  {
    if entries != [] {
      TableIsAsked(entries[1..], group, key);
    }
  }

  /** The declared keys the machine does not hold. */
  function Adds(app: string, live: LiveKeys, entries: seq<Entry>): seq<Drift> {
    if entries == [] then []
    else
      var e := entries[0];
      (if (e.group, e.key) in live && live[(e.group, e.key)] == e.value then []
       else [Drift(app, e.group, e.key, Add)])
      + Adds(app, live, entries[1..])
  }

  /** The keys kuma set that are still there and no longer declared. */
  function Removes(app: string, live: LiveKeys, ids: seq<string>, kept: seq<string>): seq<Drift> {
    if ids == [] then []
    else
      (if ids[0] in kept || SplitId(ids[0]).None? || SplitId(ids[0]).value !in live then []
       else [Drift(app, SplitId(ids[0]).value.0, SplitId(ids[0]).value.1, Remove)])
      + Removes(app, live, ids[1..], kept)
  }

  predicate InScope(declared: Overrides, scope: Scope, app: string) {
    app in declared && declared[app].scope == scope
  }

  function KeptIds(declared: Overrides, scope: Scope, app: string): seq<string> {
    if InScope(declared, scope, app) then Ids(DeclaredKeys(declared[app])) else []
  }

  function KeysIn(declared: Overrides, app: string): seq<Entry> {
    if app in declared then DeclaredKeys(declared[app]) else []
  }

  function Live(files: map<string, string>, app: string): LiveKeys { Table(ParseDeclared(TextIn(files, app))) }

  function AddsOf(declared: Overrides, files: map<string, string>, apps: seq<string>): seq<Drift> {
    if apps == [] then []
    else Adds(apps[0], Live(files, apps[0]), KeysIn(declared, apps[0])) + AddsOf(declared, files, apps[1..])
  }

  function RemovesOf(declared: Overrides, scope: Scope, files: map<string, string>, previous: Owned,
                     apps: seq<string>): seq<Drift> {
    if apps == [] then []
    else Removes(apps[0], Live(files, apps[0]), IdsOf(previous, apps[0]),
                 KeptIds(declared, scope, apps[0]))
         + RemovesOf(declared, scope, files, previous, apps[1..])
  }

  function ScopeApps(declared: Overrides, scope: Scope): set<string> {
    set app | app in declared && declared[app].scope == scope
  }

  function DriftIn(declared: Overrides, scope: Scope, d: Disk): seq<Drift> {
    AddsOf(declared, d.files, Sorted(ScopeApps(declared, scope)))
    + RemovesOf(declared, scope, d.files, Previous(d), Sorted(Previous(d).Keys))
  }

  // ----- the observer -----

  method ListAdds(app: string, live: LiveKeys, entries: seq<Entry>) returns (out: seq<Drift>, ids: seq<string>)
    ensures out == Adds(app, live, entries) && ids == Ids(entries)
  {
    out, ids := [], [];
    for i := 0 to |entries|
      invariant out + Adds(app, live, entries[i..]) == Adds(app, live, entries)
      invariant ids + Ids(entries[i..]) == Ids(entries)
    {
      assert entries[i..][0] == entries[i] && entries[i..][1..] == entries[i + 1..];
      var e := entries[i];
      ghost var rest := Adds(app, live, entries[i + 1..]);
      SeqAssociative(ids, [OwnedId(e.group, e.key)], Ids(entries[i + 1..]));
      ids := ids + [OwnedId(e.group, e.key)];
      if (e.group, e.key) !in live || live[(e.group, e.key)] != e.value {
        SeqAssociative(out, [Drift(app, e.group, e.key, Add)], rest);
        out := out + [Drift(app, e.group, e.key, Add)];
      } else {
        assert [] + rest == rest;
      }
    }
  }

  method ListRemoves(app: string, live: LiveKeys, ids: seq<string>, kept: seq<string>) returns (out: seq<Drift>)
    ensures out == Removes(app, live, ids, kept)
  {
    out := [];
    for i := 0 to |ids|
      invariant out + Removes(app, live, ids[i..], kept) == Removes(app, live, ids, kept)
    {
      assert ids[i..][0] == ids[i] && ids[i..][1..] == ids[i + 1..];
      ghost var rest := Removes(app, live, ids[i + 1..], kept);
      assert [] + rest == rest;
      if ids[i] in kept {
        continue;
      }
      var split := SplitId(ids[i]);
      if split.None? {
        continue;
      }
      if split.value in live {
        var d := Drift(app, split.value.0, split.value.1, Remove);
        SeqAssociative(out, [d], rest);
        out := out + [d];
      }
    }
  }

  /** The ids of the declared keys, for the applications listed. */
  ghost predicate KeptFor(declared: Overrides, apps: seq<string>, kept: map<string, seq<string>>) {
    && (forall a :: a in kept <==> a in apps)
    && (forall a <- kept :: kept[a] == Ids(KeysIn(declared, a)))
  }

  lemma KeptForNext(declared: Overrides, apps: seq<string>, i: nat, kept: map<string, seq<string>>)
    requires i < |apps| && KeptFor(declared, apps[..i], kept)
    ensures KeptFor(declared, apps[..i + 1], kept[apps[i] := Ids(KeysIn(declared, apps[i]))])
  {
    assert apps[..i + 1] == apps[..i] + [apps[i]];
  }

  method FindAdds(declared: Overrides, files: map<string, string>, apps: seq<string>)
    returns (out: seq<Drift>, kept: map<string, seq<string>>)
    ensures out == AddsOf(declared, files, apps)
    ensures KeptFor(declared, apps, kept)
  {
    out, kept := [], map[];
    for i := 0 to |apps|
      invariant out + AddsOf(declared, files, apps[i..]) == AddsOf(declared, files, apps)
      invariant KeptFor(declared, apps[..i], kept)
    {
      assert apps[i..][0] == apps[i] && apps[i..][1..] == apps[i + 1..];
      var more, ids := ListAdds(apps[i], Live(files, apps[i]), KeysIn(declared, apps[i]));
      SeqAssociative(out, more, AddsOf(declared, files, apps[i + 1..]));
      out := out + more;
      KeptForNext(declared, apps, i, kept);
      kept := kept[apps[i] := ids];
    }
    assert apps[..|apps|] == apps;
  }

  method FindRemoves(declared: Overrides, scope: Scope, files: map<string, string>, previous: Owned,
                     kept: map<string, seq<string>>, apps: seq<string>) returns (out: seq<Drift>)
    requires KeptFor(declared, Sorted(ScopeApps(declared, scope)), kept)
    ensures out == RemovesOf(declared, scope, files, previous, apps)
  {
    out := [];
    for i := 0 to |apps|
      invariant out + RemovesOf(declared, scope, files, previous, apps[i..])
             == RemovesOf(declared, scope, files, previous, apps)
    {
      assert apps[i..][0] == apps[i] && apps[i..][1..] == apps[i + 1..];
      var app := apps[i];
      var still := if app in kept then kept[app] else [];
      var more := ListRemoves(app, Live(files, app), IdsOf(previous, app), still);
      ghost var rest := RemovesOf(declared, scope, files, previous, apps[i + 1..]);
      assert RemovesOf(declared, scope, files, previous, apps[i..]) == more + rest;
      SeqAssociative(out, more, rest);
      out := out + more;
    }
  }

  method FindDriftIn(declared: Overrides, scope: Scope, d: Disk) returns (out: seq<Drift>)
    ensures out == DriftIn(declared, scope, d)
  {
    var previous := LoadState(d.record);
    var adds, kept := FindAdds(declared, d.files, Sorted(ScopeApps(declared, scope)));
    var removes := FindRemoves(declared, scope, d.files, previous, kept, Sorted(previous.Keys));
    out := adds + removes;
  }

  /** `drift`: the system store first, then the user's. */
  method FindDrift(declared: Overrides, system: Disk, user: Disk) returns (out: seq<Drift>)
    ensures out == DriftIn(declared, System, system) + DriftIn(declared, User, user)
  {
    var a := FindDriftIn(declared, System, system);
    var b := FindDriftIn(declared, User, user);
    out := a + b;
  }

  // ----- what the report says -----

  lemma {:induction false} AddsMean(app: string, live: LiveKeys, entries: seq<Entry>, group: string, key: string)
    requires Distinct(entries)
    ensures var asked := Asked(entries, group, key);
      Drift(app, group, key, Add) in Adds(app, live, entries) <==>
        asked.Some? && !((group, key) in live && live[(group, key)] == asked.value)
  {
    if entries != [] {
      AddsMean(app, live, entries[1..], group, key);
      if entries[0].group == group && entries[0].key == key {
        NotAsked(entries[1..], group, key);
      }
    }
  }

  lemma {:induction false} RemovesMean(app: string, live: LiveKeys, ids: seq<string>, kept: seq<string>,
                                       group: string, key: string)
    requires '\t' !in group
    ensures Drift(app, group, key, Remove) in Removes(app, live, ids, kept) <==>
              OwnedId(group, key) in ids && OwnedId(group, key) !in kept && (group, key) in live
  {
    SplitOwnedId(group, key);
    if ids != [] {
      RemovesMean(app, live, ids[1..], kept, group, key);
      if SplitId(ids[0]).Some? {
        SplitIdIsId(ids[0]);
      }
    }
  }

  lemma {:induction false} AddsOfMean(declared: Overrides, files: map<string, string>, apps: seq<string>, x: Drift)
    ensures x in AddsOf(declared, files, apps) <==>
              x.app in apps && x in Adds(x.app, Live(files, x.app), KeysIn(declared, x.app))
  {
    if apps != [] {
      AddsName(apps[0], Live(files, apps[0]), KeysIn(declared, apps[0]));
      AddsOfMean(declared, files, apps[1..], x);
    }
  }

  lemma {:induction false} RemovesOfMean(declared: Overrides, scope: Scope, files: map<string, string>,
                                         previous: Owned, apps: seq<string>, x: Drift)
    ensures x in RemovesOf(declared, scope, files, previous, apps) <==>
              x.app in apps && x in Removes(x.app, Live(files, x.app), IdsOf(previous, x.app),
                                            KeptIds(declared, scope, x.app))
  {
    if apps != [] {
      RemovesName(apps[0], Live(files, apps[0]), IdsOf(previous, apps[0]), KeptIds(declared, scope, apps[0]));
      RemovesOfMean(declared, scope, files, previous, apps[1..], x);
    }
  }

  lemma {:induction false} AddsAdd(app: string, live: LiveKeys, entries: seq<Entry>)
    ensures forall d <- Adds(app, live, entries) :: d.change == Add
  {
    if entries != [] {
      AddsAdd(app, live, entries[1..]);
    }
  }

  lemma {:induction false} RemovesRemove(app: string, live: LiveKeys, ids: seq<string>, kept: seq<string>)
    ensures forall d <- Removes(app, live, ids, kept) :: d.change == Remove
  {
    if ids != [] {
      RemovesRemove(app, live, ids[1..], kept);
    }
  }

  predicate ShowsAdd(declared: Overrides, scope: Scope, d: Disk, app: string, group: string, key: string) {
    InScope(declared, scope, app) && Asked(DeclaredKeys(declared[app]), group, key).Some? &&
    var live := Live(d.files, app);
    !((group, key) in live && live[(group, key)] == Asked(DeclaredKeys(declared[app]), group, key).value)
  }

  predicate ShowsRemove(declared: Overrides, scope: Scope, d: Disk, app: string, group: string, key: string) {
    OwnedId(group, key) in IdsOf(Previous(d), app) && OwnedId(group, key) !in KeptIds(declared, scope, app)
    && (group, key) in Live(d.files, app)
  }

  /** What `kuma diff` lists, in both directions: a declared key the store does
      not hold as declared, and an owned key that is not declared and still there. */
  lemma DriftMeans(declared: Overrides, scope: Scope, d: Disk, app: string, group: string, key: string)
    requires '\t' !in group && (InScope(declared, scope, app) ==> Distinct(DeclaredKeys(declared[app])))
    ensures Drift(app, group, key, Add) in DriftIn(declared, scope, d) <==>
              ShowsAdd(declared, scope, d, app, group, key)
    ensures Drift(app, group, key, Remove) in DriftIn(declared, scope, d) <==>
              ShowsRemove(declared, scope, d, app, group, key)
  {
    AddIsListed(declared, scope, d, app, group, key);
    RemoveIsListed(declared, scope, d, app, group, key);
    OnlyRemovesRemove(declared, scope, d, app, group, key);
  }

  lemma AddIsListed(declared: Overrides, scope: Scope, d: Disk, app: string, group: string, key: string)
    requires InScope(declared, scope, app) ==> Distinct(DeclaredKeys(declared[app]))
    ensures Drift(app, group, key, Add) in AddsOf(declared, d.files, Sorted(ScopeApps(declared, scope))) <==>
              ShowsAdd(declared, scope, d, app, group, key)
  {
    AddsOfMean(declared, d.files, Sorted(ScopeApps(declared, scope)), Drift(app, group, key, Add));
    if InScope(declared, scope, app) {
      AddsMean(app, Live(d.files, app), DeclaredKeys(declared[app]), group, key);
    }
  }

  lemma RemoveIsListed(declared: Overrides, scope: Scope, d: Disk, app: string, group: string, key: string)
    requires '\t' !in group
    ensures Drift(app, group, key, Remove)
              in RemovesOf(declared, scope, d.files, Previous(d), Sorted(Previous(d).Keys)) <==>
            ShowsRemove(declared, scope, d, app, group, key)
  {
    var previous := Previous(d);
    RemovesOfMean(declared, scope, d.files, previous, Sorted(previous.Keys), Drift(app, group, key, Remove));
    RemovesMean(app, Live(d.files, app), IdsOf(previous, app), KeptIds(declared, scope, app), group, key);
  }

  lemma OnlyRemovesRemove(declared: Overrides, scope: Scope, d: Disk, app: string, group: string, key: string)
    ensures Drift(app, group, key, Remove) !in AddsOf(declared, d.files, Sorted(ScopeApps(declared, scope)))
    ensures Drift(app, group, key, Add)
              !in RemovesOf(declared, scope, d.files, Previous(d), Sorted(Previous(d).Keys))
  {
    var previous := Previous(d);
    AddsOfMean(declared, d.files, Sorted(ScopeApps(declared, scope)), Drift(app, group, key, Remove));
    AddsAdd(app, Live(d.files, app), KeysIn(declared, app));
    RemovesOfMean(declared, scope, d.files, previous, Sorted(previous.Keys), Drift(app, group, key, Add));
    RemovesRemove(app, Live(d.files, app), IdsOf(previous, app), KeptIds(declared, scope, app));
  }

  // ----- drift against the pass -----

  function DriftIds(drift: seq<Drift>): seq<string> {
    if drift == [] then [] else [OwnedId(drift[0].group, drift[0].key)] + DriftIds(drift[1..])
  }

  lemma DriftIdsCons(d: Drift, rest: seq<Drift>)
    ensures DriftIds([d] + rest) == [OwnedId(d.group, d.key)] + DriftIds(rest)
    ensures [] + rest == rest
  {
    assert ([d] + rest)[1..] == rest;
  }

  /** The image was built from this declaration: every table of the scope is
      baked, and nothing else is. */
  predicate BakedFrom(baked: map<string, string>, declared: Overrides, scope: Scope) {
    && baked.Keys == ScopeApps(declared, scope)
    && (forall app <- baked :: app in declared ==> baked[app] == Bake(DeclaredKeys(declared[app])))
  }

  predicate ValidOverrides(declared: Overrides) {
    forall app <- declared :: Valid(declared[app]) && ValuesEndWell(declared[app])
  }

  /** The table and the groups hold the same value for a key. */
  predicate Agree(live: LiveKeys, groups: seq<Group>, group: string, key: string) {
    Find(groups, group, key) == if (group, key) in live then Some(live[(group, key)]) else None
  }

  lemma LiveAgrees(text: string, group: string, key: string)
    requires WellFormed(text) && group != ""
    ensures Agree(Table(ParseDeclared(text)), Parse(text), group, key)
  {
    TableIsAsked(ParseDeclared(text), group, key);
    LiveKeysAgree(text, group, key);
  }

  lemma {:induction false} AddsAreMissing(app: string, live: LiveKeys, groups: seq<Group>, entries: seq<Entry>)
    requires forall e <- entries :: Agree(live, groups, e.group, e.key)
    ensures DriftIds(Adds(app, live, entries)) == Missing(groups, entries)
  {
    if entries != [] {
      assert entries[0] in entries;
      AddsAreMissing(app, live, groups, entries[1..]);
      DriftIdsCons(Drift(app, entries[0].group, entries[0].key, Add), Adds(app, live, entries[1..]));
    }
  }

  predicate AgreeOn(live: LiveKeys, groups: seq<Group>, id: string) {
    SplitId(id).Some? && Agree(live, groups, SplitId(id).value.0, SplitId(id).value.1)
  }

  lemma {:induction false} RemovesAreLeftover(app: string, live: LiveKeys, groups: seq<Group>,
                                              ids: seq<string>, kept: seq<string>)
    requires forall id <- ids :: AgreeOn(live, groups, id)
    ensures DriftIds(Removes(app, live, ids, kept)) == Leftover(groups, ids, kept)
  {
    if ids != [] {
      assert AgreeOn(live, groups, ids[0]) by { assert ids[0] in ids; }
      SplitIdIsId(ids[0]);
      RemovesAreLeftover(app, live, groups, ids[1..], kept);
      var (group, key) := SplitId(ids[0]).value;
      DriftIdsCons(Drift(app, group, key, Remove), Removes(app, live, ids[1..], kept));
    }
  }

  lemma BakedWanted(baked: map<string, string>, declared: Overrides, scope: Scope, app: string)
    requires BakedFrom(baked, declared, scope) && ValidOverrides(declared)
    ensures WantedIn(baked, app) == if InScope(declared, scope, app) then DeclaredKeys(declared[app]) else []
    ensures Legal(WantedIn(baked, app)) && Distinct(WantedIn(baked, app))
  {
    if InScope(declared, scope, app) {
      DeclaredKeysLegal(declared[app]);
      BakedIsReadBack(DeclaredKeys(declared[app]));
    }
  }

  /** The prediction is exact: with the image built from the declaration, the
      additions listed for an application are the ids the next pass writes, and
      the removals the ids it takes back, in the same order. */
  lemma DriftPredictsThePass(w: World, declared: Overrides, scope: Scope, app: string)
    requires Inv(w) && ValidOverrides(declared) && BakedFrom(w.disk.baked, declared, scope)
    ensures var live := Live(w.disk.files, app);
      var adds := if InScope(declared, scope, app) then Adds(app, live, DeclaredKeys(declared[app])) else [];
      var removes := Removes(app, live, IdsOf(Previous(w.disk), app), KeptIds(declared, scope, app));
      Visit(FoundOn(w.disk), app).changed == Changed(DriftIds(adds), DriftIds(removes))
  {
    var text, wanted := TextIn(w.disk.files, app), WantedIn(w.disk.baked, app);
    var ids := IdsOf(Previous(w.disk), app);
    EmptyWellFormed();
    BakedWanted(w.disk.baked, declared, scope, app);
    var live, groups := Live(w.disk.files, app), Parse(text);
    forall e | e in wanted ensures Agree(live, groups, e.group, e.key) {
      assert LegalEntry(e);
      LiveAgrees(text, e.group, e.key);
    }
    AddsAreMissing(app, live, groups, wanted);
    forall id | id in ids ensures AgreeOn(live, groups, id) {
      assert Recorded(id, app, w.declared);
      LiveAgrees(text, SplitId(id).value.0, SplitId(id).value.1);
    }
    RemovesAreLeftover(app, live, groups, ids, Ids(wanted));
    ConvergeReports(text, wanted, ids);
  }

  // ----- drift against the report of a whole pass -----

  function PartOf(changed: Changed, what: Change): seq<string> {
    match what
    case Add => changed.written
    case Remove => changed.removed
  }

  function Tagged(app: string, ids: seq<string>): seq<(string, string)> {
    if ids == [] then [] else [(app, ids[0])] + Tagged(app, ids[1..])
  }

  /** One half of a report, flat: every id with its application. */
  function Told(report: seq<(string, Changed)>, what: Change): seq<(string, string)> {
    if report == [] then [] else Tagged(report[0].0, PartOf(report[0].1, what)) + Told(report[1..], what)
  }

  function DriftPairs(drift: seq<Drift>): seq<(string, string)> {
    if drift == [] then []
    else [(drift[0].app, OwnedId(drift[0].group, drift[0].key))] + DriftPairs(drift[1..])
  }

  function VisitsTell(f: Found, apps: seq<string>, what: Change): seq<(string, string)> {
    if apps == [] then []
    else Tagged(apps[0], PartOf(Visit(f, apps[0]).changed, what)) + VisitsTell(f, apps[1..], what)
  }

  lemma {:induction false} ReportIsTold(f: Found, apps: seq<string>, what: Change)
    ensures Told(Report(f, apps), what) == VisitsTell(f, apps, what)
  {
    if apps != [] {
      var r := Visit(f, apps[0]);
      var rest := Report(f, apps[1..]);
      ReportIsTold(f, apps[1..], what);
      if r.changed == UNCHANGED {
        assert [] + rest == rest && [] + Told(rest, what) == Told(rest, what);
      } else {
        assert ([(apps[0], r.changed)] + rest)[1..] == rest;
      }
    }
  }

  lemma {:induction false} PairsAreTagged(app: string, drift: seq<Drift>)
    requires forall d <- drift :: d.app == app
    ensures DriftPairs(drift) == Tagged(app, DriftIds(drift))
  {
    if drift != [] {
      assert drift[0] in drift;
      PairsAreTagged(app, drift[1..]);
      assert ([OwnedId(drift[0].group, drift[0].key)] + DriftIds(drift[1..]))[1..] == DriftIds(drift[1..]);
    }
  }

  lemma {:induction false} DriftPairsAppend(a: seq<Drift>, b: seq<Drift>)
    ensures DriftPairs(a + b) == DriftPairs(a) + DriftPairs(b)
  {
    if a == [] {
      assert a + b == b;
    } else {
      assert (a + b)[0] == a[0] && (a + b)[1..] == a[1..] + b;
      DriftPairsAppend(a[1..], b);
    }
  }

  lemma {:induction false} AddsName(app: string, live: LiveKeys, entries: seq<Entry>)
    ensures forall d <- Adds(app, live, entries) :: d.app == app
  {
    if entries != [] {
      AddsName(app, live, entries[1..]);
    }
  }

  lemma {:induction false} RemovesName(app: string, live: LiveKeys, ids: seq<string>, kept: seq<string>)
    ensures forall d <- Removes(app, live, ids, kept) :: d.app == app
  {
    if ids != [] {
      RemovesName(app, live, ids[1..], kept);
    }
  }

  lemma {:induction false} AddsAreTold(w: World, declared: Overrides, scope: Scope, apps: seq<string>)
    requires Inv(w) && ValidOverrides(declared) && BakedFrom(w.disk.baked, declared, scope)
    requires forall app <- apps :: InScope(declared, scope, app)
    ensures DriftPairs(AddsOf(declared, w.disk.files, apps)) == VisitsTell(FoundOn(w.disk), apps, Add)
  {
    if apps != [] {
      assert apps[0] in apps;
      var live, entries := Live(w.disk.files, apps[0]), KeysIn(declared, apps[0]);
      DriftPredictsThePass(w, declared, scope, apps[0]);
      AddsName(apps[0], live, entries);
      PairsAreTagged(apps[0], Adds(apps[0], live, entries));
      DriftPairsAppend(Adds(apps[0], live, entries), AddsOf(declared, w.disk.files, apps[1..]));
      AddsAreTold(w, declared, scope, apps[1..]);
    }
  }

  lemma {:induction false} RemovesAreTold(w: World, declared: Overrides, scope: Scope, apps: seq<string>)
    requires Inv(w) && ValidOverrides(declared) && BakedFrom(w.disk.baked, declared, scope)
    ensures DriftPairs(RemovesOf(declared, scope, w.disk.files, Previous(w.disk), apps))
            == VisitsTell(FoundOn(w.disk), apps, Remove)
  {
    if apps != [] {
      var live, ids := Live(w.disk.files, apps[0]), IdsOf(Previous(w.disk), apps[0]);
      var first := Removes(apps[0], live, ids, KeptIds(declared, scope, apps[0]));
      DriftPredictsThePass(w, declared, scope, apps[0]);
      RemovesName(apps[0], live, ids, KeptIds(declared, scope, apps[0]));
      PairsAreTagged(apps[0], first);
      DriftPairsAppend(first, RemovesOf(declared, scope, w.disk.files, Previous(w.disk), apps[1..]));
      RemovesAreTold(w, declared, scope, apps[1..]);
    }
  }

  predicate Silent(f: Found, app: string, what: Change) { PartOf(Visit(f, app).changed, what) == [] }

  lemma {:induction false} SilentSkipped(f: Found, xs: seq<string>, s: set<string>, what: Change)
    requires forall x <- xs :: x in s || Silent(f, x, what)
    ensures VisitsTell(f, xs, what) == VisitsTell(f, Keep(xs, s), what)
  {
    if xs != [] {
      var rest := Keep(xs[1..], s);
      assert xs[0] in xs;
      SilentSkipped(f, xs[1..], s, what);
      assert ([xs[0]] + rest)[1..] == rest;
      assert [] + VisitsTell(f, rest, what) == VisitsTell(f, rest, what);
    }
  }

  /** Going over more applications tells nothing more, where the others have
      nothing to tell. */
  lemma OthersTellNothing(f: Found, apps: set<string>, more: set<string>, what: Change)
    requires apps <= more && forall app <- more :: app in apps || Silent(f, app, what)
    ensures VisitsTell(f, Sorted(more), what) == VisitsTell(f, Sorted(apps), what)
  {
    assert more * apps == apps;
    SortedKeep(more, apps);
    SilentSkipped(f, Sorted(more), apps, what);
  }

  lemma SilentElsewhere(w: World, declared: Overrides, scope: Scope, app: string)
    requires Inv(w) && ValidOverrides(declared) && BakedFrom(w.disk.baked, declared, scope)
    ensures app in ScopeApps(declared, scope) || Silent(FoundOn(w.disk), app, Add)
    ensures app in Previous(w.disk).Keys || Silent(FoundOn(w.disk), app, Remove)
  {
    DriftPredictsThePass(w, declared, scope, app);
  }

  lemma AddsAreReported(w: World, declared: Overrides, scope: Scope)
    requires Inv(w) && ValidOverrides(declared) && BakedFrom(w.disk.baked, declared, scope)
    ensures DriftPairs(AddsOf(declared, w.disk.files, Sorted(ScopeApps(declared, scope))))
            == Told(Report(FoundOn(w.disk), Visiting(w.disk)), Add)
  {
    var d, apps := w.disk, ScopeApps(declared, scope);
    forall app | app in Apps(d) ensures app in apps || Silent(FoundOn(d), app, Add) {
      SilentElsewhere(w, declared, scope, app);
    }
    AddsAreTold(w, declared, scope, Sorted(apps));
    OthersTellNothing(FoundOn(d), apps, Apps(d), Add);
    ReportIsTold(FoundOn(d), Visiting(d), Add);
  }

  lemma RemovesAreReported(w: World, declared: Overrides, scope: Scope)
    requires Inv(w) && ValidOverrides(declared) && BakedFrom(w.disk.baked, declared, scope)
    ensures DriftPairs(RemovesOf(declared, scope, w.disk.files, Previous(w.disk), Sorted(Previous(w.disk).Keys)))
            == Told(Report(FoundOn(w.disk), Visiting(w.disk)), Remove)
  {
    var d, apps := w.disk, Previous(w.disk).Keys;
    forall app | app in Apps(d) ensures app in apps || Silent(FoundOn(d), app, Remove) {
      SilentElsewhere(w, declared, scope, app);
    }
    RemovesAreTold(w, declared, scope, Sorted(apps));
    OthersTellNothing(FoundOn(d), apps, Apps(d), Remove);
    ReportIsTold(FoundOn(d), Visiting(d), Remove);
  }

  /** The prediction for the whole list: the additions `kuma diff` shows for a
      scope are what the next pass reports as set, id for id and in order, and its
      removals what the pass reports as removed. */
  lemma DriftPredictsTheReport(w: World, declared: Overrides, scope: Scope)
    requires Inv(w) && ValidOverrides(declared) && BakedFrom(w.disk.baked, declared, scope)
    ensures var d := w.disk;
      var report := Report(FoundOn(d), Visiting(d));
      var adds := AddsOf(declared, d.files, Sorted(ScopeApps(declared, scope)));
      var removes := RemovesOf(declared, scope, d.files, Previous(d), Sorted(Previous(d).Keys));
      && DriftIn(declared, scope, d) == adds + removes
      && DriftPairs(adds) == Told(report, Add) && DriftPairs(removes) == Told(report, Remove)
  {
    AddsAreReported(w, declared, scope);
    RemovesAreReported(w, declared, scope);
  }

  /** The drift a converged application shows. */
  predicate Settled(declared: Overrides, scope: Scope, d: Disk, app: string) {
    && (InScope(declared, scope, app) ==> Adds(app, Live(d.files, app), KeysIn(declared, app)) == [])
    && Removes(app, Live(d.files, app), IdsOf(Previous(d), app), KeptIds(declared, scope, app)) == []
  }

  lemma {:induction false} NoAdds(declared: Overrides, scope: Scope, d: Disk, apps: seq<string>)
    requires forall a <- apps :: InScope(declared, scope, a) && Settled(declared, scope, d, a)
    ensures AddsOf(declared, d.files, apps) == []
  {
    if apps != [] {
      assert apps[0] in apps;
      NoAdds(declared, scope, d, apps[1..]);
    }
  }

  lemma {:induction false} NoRemoves(declared: Overrides, scope: Scope, d: Disk, apps: seq<string>)
    requires forall a <- apps :: Settled(declared, scope, d, a)
    ensures RemovesOf(declared, scope, d.files, Previous(d), apps) == []
  {
    if apps != [] {
      assert apps[0] in apps;
      NoRemoves(declared, scope, d, apps[1..]);
    }
  }

  lemma PassSettlesApp(w: World, declared: Overrides, scope: Scope, app: string)
    requires Inv(w) && ValidOverrides(declared) && BakedFrom(w.disk.baked, declared, scope)
    requires app in Apps(Pass(w.disk))
    ensures Settled(declared, scope, Pass(w.disk), app)
  {
    var w' := Next(w, RunPass);
    PassKeepsInv(w);
    DriftPredictsThePass(w', declared, scope, app);
    SecondVisit(w, app);
  }

  lemma ScopeQuiet(w: World, declared: Overrides, scope: Scope)
    requires Inv(w) && ValidOverrides(declared) && BakedFrom(w.disk.baked, declared, scope)
    ensures DriftIn(declared, scope, Pass(w.disk)) == []
  {
    var d := Pass(w.disk);
    forall app | app in Apps(d) ensures Settled(declared, scope, d, app) {
      PassSettlesApp(w, declared, scope, app);
    }
    NoAdds(declared, scope, d, Sorted(ScopeApps(declared, scope)));
    NoRemoves(declared, scope, d, Sorted(Previous(d).Keys));
  }

  /** After both passes there is no drift. */
  lemma PassesEndDrift(system: World, user: World, declared: Overrides)
    requires Inv(system) && Inv(user) && ValidOverrides(declared)
    requires BakedFrom(system.disk.baked, declared, System) && BakedFrom(user.disk.baked, declared, User)
    ensures DriftIn(declared, System, Pass(system.disk)) + DriftIn(declared, User, Pass(user.disk)) == []
  {
    ScopeQuiet(system, declared, System);
    ScopeQuiet(user, declared, User);
  }
}
