/** A whole capture (`capture` in `src/capture.rs`): packages and permissions,
    chosen together and written one after the other. */
module Captures {
  import opened Text
  import opened Order
  import opened Convergence
  import opened Declaration
  import opened OverrideStore
  import opened Drifting
  import opened CapturedOverrides
  import opened PackageEdits
  import opened Inventory
  import opened Candidates

  const CAPTURE_CHARS := {'.', '-', '_', '+', '@', '/'}

  /** What a run of `capture --yes` comes to. A name can be refused for how it is
      spelled or because nothing here has it; the file can refuse the packages, or
      take them and refuse the permissions. */
  datatype Result = Misspelled | Unknown | Nothing | Refused | PackagesOnly | Captured

  function AppsIn(p: Packages): set<string> { set name <- p.flatpak }

  function Narrowed(proposals: seq<Proposal>, names: seq<string>): seq<Proposal> {
    if proposals == [] then []
    else if proposals[0].app in names then [proposals[0]] + Narrowed(proposals[1..], names)
    else Narrowed(proposals[1..], names)
  }

  /** The permissions this capture would write. */
  function ToPropose(p: Packages, declared: Overrides, system: Disk, user: Disk, names: seq<string>): seq<Proposal> {
    var all := Proposals(declared, system, user, Sorted(AppsIn(p)));
    if names == [] then all else Narrowed(all, names)
  }

  function Proposed(proposals: seq<Proposal>): set<string> { set p <- proposals :: p.app }

  function DeclareProposals(declared: Overrides, proposals: seq<Proposal>): Option<Overrides>
    decreases |proposals|
  {
    if proposals == [] then Some(declared)
    else
      match DeclareAll(declared, proposals[0])
      case None => None
      case Some(next) => DeclareProposals(next, proposals[1..])
  }

  predicate Takes(p: Packages, declared: Option<Overrides>) {
    declared.Some? && Storable(p) && ValidTables(declared.value)
  }

  /** The packages first, then the permissions. */
  function Writing(p: Packages, declared: Overrides, items: seq<Item>, proposals: seq<Proposal>)
    : (Result, Packages, Overrides)
  {
    var q, more := Declared(p, items), DeclareProposals(declared, proposals);
    if !Takes(q, Some(declared)) then (Refused, p, declared)
    else if proposals == [] then (Captured, q, declared)
    else if Takes(q, more) then (Captured, q, more.value)
    else (PackagesOnly, q, declared)
  }

  /** The result and the two halves of the declaration after it. */
  function After(p: Packages, declared: Overrides, m: Machine, system: Disk, user: Disk, names: seq<string>)
    : (Result, Packages, Overrides)
  {
    var proposals := ToPropose(p, declared, system, user, names);
    var items := Selected(AllCandidates(p, m), Proposed(proposals), names);
    if exists n <- names :: !ValidName(n, CAPTURE_CHARS) then (Misspelled, p, declared)
    else if items.None? then (Unknown, p, declared)
    else if items.value == [] && proposals == [] then (Nothing, p, declared)
    else Writing(p, declared, items.value, proposals)
  }

  method Narrow(proposals: seq<Proposal>, names: seq<string>) returns (kept: seq<Proposal>)
    ensures kept == Narrowed(proposals, names)
  {
    kept := [];
    for i := 0 to |proposals|
      invariant kept + Narrowed(proposals[i..], names) == Narrowed(proposals, names)
    {
      assert proposals[i..][0] == proposals[i] && proposals[i..][1..] == proposals[i + 1..];
      if proposals[i].app in names {
        SeqAssociative(kept, [proposals[i]], Narrowed(proposals[i + 1..], names));
        kept := kept + [proposals[i]];
      }
    }
  }

  /** `declare_overrides`: all the tables are written, or none is. */
  method WriteOverrides(file: DeclarationFile, proposals: seq<Proposal>) returns (stored: bool)
    modifies file`overrides
    ensures var more := DeclareProposals(old(file.overrides), proposals);
      && stored == Takes(file.packages, more)
      && file.overrides == if stored then more.value else old(file.overrides)
  {
    var doc := Some(file.overrides);
    for i := 0 to |proposals|
      invariant file.overrides == old(file.overrides)
      invariant DeclareProposals(file.overrides, proposals)
             == if doc.Some? then DeclareProposals(doc.value, proposals[i..]) else None
    {
      assert proposals[i..][0] == proposals[i] && proposals[i..][1..] == proposals[i + 1..];
      if doc.Some? {
        doc := DeclareAll(doc.value, proposals[i]);
      }
    }
    stored := Takes(file.packages, doc);
    if stored {
      file.overrides := doc.value;
    }
  }

  method Capture(file: DeclarationFile, m: Machine, system: Disk, user: Disk, names: seq<string>)
    returns (result: Result)
    modifies file
    ensures (result, file.packages, file.overrides)
         == After(old(file.packages), old(file.overrides), m, system, user, names)
  {
    if exists n <- names :: !ValidName(n, CAPTURE_CHARS) {
      return Misspelled;
    }
    var found := FindCandidates(file.packages, m);
    var proposals, _ := FindCapturable(AppsIn(file.packages), file.overrides, system, user);
    if names != [] {
      proposals := Narrow(proposals, names);
    }
    var items := Select(found, Proposed(proposals), names);
    if items.None? {
      return Unknown;
    }
    if items.value == [] && proposals == [] {
      return Nothing;
    }
    var stored := file.Declare(items.value);
    if !stored {
      return Refused;
    }
    if proposals != [] {
      stored := WriteOverrides(file, proposals);
      if !stored {
        return PackagesOnly;
      }
    }
    result := Captured;
  }

  // ----- what comes of a capture -----

  lemma {:induction false} NarrowedAre(proposals: seq<Proposal>, names: seq<string>)
    ensures forall p :: p in Narrowed(proposals, names) <==> p in proposals && p.app in names
  {
    if proposals != [] {
      NarrowedAre(proposals[1..], names);
    }
  }

  /** The permissions a capture proposes: all there are without names, and else
      those of the applications named. */
  lemma ProposedAre(p: Packages, declared: Overrides, system: Disk, user: Disk, names: seq<string>, x: Proposal)
    ensures x in ToPropose(p, declared, system, user, names) <==>
              x in Proposals(declared, system, user, Sorted(AppsIn(p))) && (names == [] || x.app in names)
  {
    NarrowedAre(Proposals(declared, system, user, Sorted(AppsIn(p))), names);
  }

  predicate Has(p: Packages, n: string) { n in p.rpm || n in p.flatpak || n in p.brew }

  lemma PickedAreDeclared(p: Packages, cs: seq<Candidate>, proposed: set<string>, names: seq<string>)
    requires Picked(cs, proposed, names).Some?
    ensures forall n <- names :: n in proposed || Has(Declared(p, Picked(cs, proposed, names).value), n)
  {
    var items := Picked(cs, proposed, names).value;
    PickedAre(cs, proposed, names);
    forall item | item in items ensures Has(Declared(p, items), item.name) {
      DeclaredHolds(p, items, item.list);
    }
  }

  /** How a capture ends. A misspelled name ends it, and so does an unknown one. It
      then changes nothing, nor when there is nothing to take or the file refuses the
      packages; the permissions alone can still be refused after that. Otherwise
      every name is in the lists or had its permissions proposed. */
  lemma CaptureEnds(p: Packages, declared: Overrides, m: Machine, system: Disk, user: Disk, names: seq<string>)
    ensures var (result, q, after) := After(p, declared, m, system, user, names);
      var proposed := Proposed(ToPropose(p, declared, system, user, names));
      && (result.Misspelled? <==> exists n <- names :: !ValidName(n, CAPTURE_CHARS))
      && (result.Unknown? <==> !result.Misspelled? && SomeUnknown(AllCandidates(p, m), proposed, names))
      && (result in {Misspelled, Unknown, Nothing, Refused} ==> q == p && after == declared)
      && (result.PackagesOnly? ==> after == declared)
      && (result in {PackagesOnly, Captured} ==> Storable(q) && forall n <- names :: n in proposed || Has(q, n))
  {
    var proposals := ToPropose(p, declared, system, user, names);
    var items := Selected(AllCandidates(p, m), Proposed(proposals), names);
    SelectedAre(p, AllCandidates(p, m), Proposed(proposals), names);
    if items.Some? {
      WritingEnds(p, declared, items.value, proposals);
    }
    AfterIs(p, declared, m, system, user, names, proposals, items);
  }

  /** A name that is neither a candidate's nor that of an application with
      permissions to propose. */
  predicate SomeUnknown(cs: seq<Candidate>, proposed: set<string>, names: seq<string>) {
    exists n <- names :: n !in proposed && forall c <- cs :: c.name != n
  }

  lemma SelectedAre(p: Packages, cs: seq<Candidate>, proposed: set<string>, names: seq<string>)
    ensures Selected(cs, proposed, names).None? <==> SomeUnknown(cs, proposed, names)
    ensures Selected(cs, proposed, names).Some? ==>
              forall n <- names :: n in proposed || Has(Declared(p, Selected(cs, proposed, names).value), n)
  {
    PickedAre(cs, proposed, names);
    if names != [] && Picked(cs, proposed, names).Some? {
      PickedAreDeclared(p, cs, proposed, names);
    }
  }

  lemma WritingEnds(p: Packages, declared: Overrides, items: seq<Item>, proposals: seq<Proposal>)
    ensures var (result, q, after) := Writing(p, declared, items, proposals);
      && result in {Refused, PackagesOnly, Captured}
      && (result.Refused? ==> q == p && after == declared) && (result.PackagesOnly? ==> after == declared)
      && (!result.Refused? ==> q == Declared(p, items) && Storable(q))
  {
    WritingIs(p, declared, items, proposals, Declared(p, items), DeclareProposals(declared, proposals));
    if Takes(Declared(p, items), Some(declared)) {
      TakesStorable(Declared(p, items), declared);
    }
  }

  lemma TakesStorable(p: Packages, declared: Overrides)
    requires Takes(p, Some(declared))
    ensures Storable(p)
  {}

  lemma WritingIs(p: Packages, declared: Overrides, items: seq<Item>, proposals: seq<Proposal>, q: Packages,
                  more: Option<Overrides>)
    requires q == Declared(p, items) && more == DeclareProposals(declared, proposals)
    ensures var r := Writing(p, declared, items, proposals);
      if !Takes(q, Some(declared)) then r == (Refused, p, declared)
      else r == (Captured, q, declared) || r == (PackagesOnly, q, declared)
           || (more.Some? && r == (Captured, q, more.value))
  {}

  lemma AfterIs(p: Packages, declared: Overrides, m: Machine, system: Disk, user: Disk, names: seq<string>,
                proposals: seq<Proposal>, items: Option<seq<Item>>)
    requires proposals == ToPropose(p, declared, system, user, names)
    requires items == Selected(AllCandidates(p, m), Proposed(proposals), names)
    ensures After(p, declared, m, system, user, names)
            == if exists n <- names :: !ValidName(n, CAPTURE_CHARS) then (Misspelled, p, declared)
               else if items.None? then (Unknown, p, declared)
               else if items.value == [] && proposals == [] then (Nothing, p, declared)
               else Writing(p, declared, items.value, proposals)
  {}

  // ----- the second capture -----

  predicate SameTable(a: Overrides, b: Overrides, app: string) {
    (app in a <==> app in b) && (app in a ==> a[app] == b[app])
  }

  lemma DeclareAllElsewhere(declared: Overrides, p: Proposal, app: string)
    requires DeclareAll(declared, p).Some? && app != p.app
    ensures SameTable(DeclareAll(declared, p).value, declared, app)
  {}

  lemma DeclareAllLocal(a: Overrides, b: Overrides, p: Proposal)
    requires SameTable(a, b, p.app)
    ensures DeclareAll(a, p).Some? <==> DeclareAll(b, p).Some?
    ensures DeclareAll(a, p).Some? ==> DeclareAll(a, p).value[p.app] == DeclareAll(b, p).value[p.app]
  {}

  predicate DistinctApps(proposals: seq<Proposal>) {
    forall i, j | 0 <= i < j < |proposals| :: proposals[i].app != proposals[j].app
  }

  /** Every proposal writes its own table, and nothing else is touched. */
  lemma {:induction false} TablesAfter(declared: Overrides, proposals: seq<Proposal>, app: string)
    requires DistinctApps(proposals) && DeclareProposals(declared, proposals).Some?
    ensures var after := DeclareProposals(declared, proposals).value;
      && (app !in Proposed(proposals) ==> SameTable(after, declared, app))
      && (forall p <- proposals | p.app == app ::
            DeclareAll(declared, p).Some? && app in after && after[app] == DeclareAll(declared, p).value[app])
    decreases |proposals|
  {
    if proposals != [] {
      var p, rest := proposals[0], proposals[1..];
      var next := DeclareAll(declared, p).value;
      assert DistinctApps(rest) && forall q <- rest :: q.app != p.app;
      TablesAfter(next, rest, app);
      if p.app != app {
        DeclareAllElsewhere(declared, p, app);
        forall q | q in rest && q.app == app
          ensures DeclareAll(declared, q).Some? && DeclareAll(next, q).value[app] == DeclareAll(declared, q).value[app]
        {
          DeclareAllLocal(next, declared, q);
        }
      }
    }
  }

  lemma OfferByTable(a: Overrides, b: Overrides, scope: Scope, d: Disk, app: string)
    requires SameTable(a, b, app)
    ensures Offer(a, scope, d, app) == Offer(b, scope, d, app)
  {
    assert KeysIn(a, app) == KeysIn(b, app);
    assert OtherScope(a, scope, app) == OtherScope(b, scope, app);
    forall group, key ensures Unclaimed(a, d, app, group, key) <==> Unclaimed(b, d, app, group, key) {
    }
  }

  lemma OfferedByTable(a: Overrides, b: Overrides, system: Disk, user: Disk, app: string)
    requires SameTable(a, b, app)
    ensures OfferedBy(a, system, user, app) == OfferedBy(b, system, user, app)
  {
    OfferByTable(a, b, System, system, app);
    OfferByTable(a, b, User, user, app);
  }

  lemma IdAsked(app: AppOverride, group: string, key: string)
    requires Valid(app) && '\t' !in group
    ensures OwnedId(group, key) in Ids(DeclaredKeys(app)) <==> Asked(DeclaredKeys(app), group, key).Some?
  {
    DeclaredKeysLegal(app);
    GroupNames();
    if Asked(DeclaredKeys(app), group, key).Some? {
      AskedIsOwned(DeclaredKeys(app), group, key);
    } else {
      NotAskedNotOwned(DeclaredKeys(app), group, key);
    }
  }

  /** A key of the proposal that asks for nothing once it is written down. */
  predicate AsksNothing(p: Proposal) {
    exists k <- p.keys :: Spelled(Entry(k.0, k.1, p.keys[k])).None?
  }

  lemma KeyOfferedAgain(declared: Overrides, after: Overrides, system: Disk, user: Disk, p: Proposal,
                        k: (string, string))
    requires IsOffer(declared, system, user, p) && DeclareAll(declared, p).Some?
    requires p.app in after && after[p.app] == DeclareAll(declared, p).value[p.app] && Valid(after[p.app])
    requires p.app in declared ==> Valid(declared[p.app])
    ensures k in Offer(after, p.scope, DiskOf(p.scope, system, user), p.app) <==>
              k in p.keys && Spelled(Entry(k.0, k.1, p.keys[k])).None?
  {
    var d := DiskOf(p.scope, system, user);
    if k in Live(d.files, p.app) && Representable(k.0, k.1) {
      RepresentableSplits(k.0, k.1);
      ProposalComesBack(declared, p, k.0, k.1);
      IdAsked(after[p.app], k.0, k.1);
      if p.app in declared {
        IdAsked(declared[p.app], k.0, k.1);
      }
    }
    ProposalComesBack(declared, p, "", "");
  }

  lemma OwnScopeAgain(declared: Overrides, after: Overrides, system: Disk, user: Disk, p: Proposal)
    requires IsOffer(declared, system, user, p) && DeclareAll(declared, p).Some?
    requires p.app in after && after[p.app] == DeclareAll(declared, p).value[p.app] && Valid(after[p.app])
    requires p.app in declared ==> Valid(declared[p.app])
    ensures Offer(after, p.scope, DiskOf(p.scope, system, user), p.app) == map[] <==> !AsksNothing(p)
  {
    var again := Offer(after, p.scope, DiskOf(p.scope, system, user), p.app);
    forall k ensures k in again <==> k in p.keys && Spelled(Entry(k.0, k.1, p.keys[k])).None? {
      KeyOfferedAgain(declared, after, system, user, p, k);
    }
    if AsksNothing(p) {
      var k :| k in p.keys && Spelled(Entry(k.0, k.1, p.keys[k])).None?;
      assert k in again;
    } else {
      assert forall k :: k !in again;
      assert again == map[];
    }
  }

  lemma OtherScopeAgain(declared: Overrides, after: Overrides, system: Disk, user: Disk, p: Proposal)
    requires IsOffer(declared, system, user, p) && DeclareAll(declared, p).Some?
    requires p.app in after && after[p.app] == DeclareAll(declared, p).value[p.app]
    ensures Offer(after, Other(p.scope), DiskOf(Other(p.scope), system, user), p.app) == map[]
  {
    var k :| k in p.keys;
    OfferMeans(declared, system, user, p, k);
    ProposalComesBack(declared, p, k.0, k.1);
  }

  lemma CountOffers(declared: Overrides, system: Disk, user: Disk, app: string, scope: Scope)
    requires Offer(declared, Other(scope), DiskOf(Other(scope), system, user), app) == map[]
    ensures |OfferedBy(declared, system, user, app)|
            == if Offer(declared, scope, DiskOf(scope, system, user), app) == map[] then 0 else 1
  {}

  /** A declared proposal is offered again exactly for its keys that ask for
      nothing. */
  lemma OfferedAgain(declared: Overrides, after: Overrides, system: Disk, user: Disk, p: Proposal)
    requires IsOffer(declared, system, user, p) && DeclareAll(declared, p).Some?
    requires p.app in after && after[p.app] == DeclareAll(declared, p).value[p.app] && Valid(after[p.app])
    requires p.app in declared ==> Valid(declared[p.app])
    ensures |OfferedBy(after, system, user, p.app)| == if AsksNothing(p) then 1 else 0
  {
    OwnScopeAgain(declared, after, system, user, p);
    OtherScopeAgain(declared, after, system, user, p);
    CountOffers(after, system, user, p.app, p.scope);
  }

  lemma {:induction false} NoProposals(declared: Overrides, system: Disk, user: Disk, apps: seq<string>)
    ensures Proposals(declared, system, user, apps) == [] <==>
              forall app <- apps :: |OfferedBy(declared, system, user, app)| != 1
  {
    if apps != [] {
      NoProposals(declared, system, user, apps[1..]);
      assert apps == [apps[0]] + apps[1..];
    }
  }

  lemma OneOfTwo(s: LiveKeys, u: LiveKeys, app: string)
    ensures var per := (if s == map[] then [] else [Proposal(app, System, s)])
                       + (if u == map[] then [] else [Proposal(app, User, u)]);
      |per| == 1 ==>
        per[0].app == app && per[0].keys != map[] && per[0].keys == (if per[0].scope == System then s else u)
  {}

  lemma OneOffer(declared: Overrides, system: Disk, user: Disk, app: string)
    requires |OfferedBy(declared, system, user, app)| == 1
    ensures var p := OfferedBy(declared, system, user, app)[0]; p.app == app && IsOffer(declared, system, user, p)
  {
    OneOfTwo(Offer(declared, System, system, app), Offer(declared, User, user, app), app);
  }

  lemma {:induction false} ProposalsAre(declared: Overrides, system: Disk, user: Disk, apps: seq<string>, p: Proposal)
    ensures p in Proposals(declared, system, user, apps) <==>
              p.app in apps && OfferedBy(declared, system, user, p.app) == [p]
  {
    if apps != [] {
      ProposalsAre(declared, system, user, apps[1..], p);
      var per := OfferedBy(declared, system, user, apps[0]);
      if |per| == 1 {
        OneOffer(declared, system, user, apps[0]);
        assert per == [per[0]];
      }
    }
  }

  lemma {:induction false} ProposalsDistinct(declared: Overrides, system: Disk, user: Disk, apps: seq<string>)
    requires NoDuplicates(apps)
    ensures DistinctApps(Proposals(declared, system, user, apps))
  {
    if apps != [] {
      var per, rest := OfferedBy(declared, system, user, apps[0]), Proposals(declared, system, user, apps[1..]);
      ProposalsDistinct(declared, system, user, apps[1..]);
      forall p | p in rest ensures p.app != apps[0] {
        ProposalsAre(declared, system, user, apps[1..], p);
      }
      if |per| == 1 {
        OneOffer(declared, system, user, apps[0]);
        DistinctCons(per[0], rest);
        assert per == [per[0]];
      } else {
        assert [] + rest == rest;
      }
    }
  }

  lemma DistinctCons(p: Proposal, rest: seq<Proposal>)
    requires DistinctApps(rest) && forall q <- rest :: q.app != p.app
    ensures DistinctApps([p] + rest)
  {}

  /** An application the first capture left alone is offered what it was. */
  lemma LeftAlone(declared: Overrides, after: Overrides, system: Disk, user: Disk, proposals: seq<Proposal>,
                  app: string)
    requires DistinctApps(proposals) && DeclareProposals(declared, proposals) == Some(after)
    requires app !in Proposed(proposals)
    ensures OfferedBy(after, system, user, app) == OfferedBy(declared, system, user, app)
  {
    TablesAfter(declared, proposals, app);
    OfferedByTable(after, declared, system, user, app);
  }

  lemma TakenUp(declared: Overrides, after: Overrides, system: Disk, user: Disk, proposals: seq<Proposal>, p: Proposal)
    requires DistinctApps(proposals) && DeclareProposals(declared, proposals) == Some(after)
    requires p in proposals && IsOffer(declared, system, user, p)
    requires ValidTables(declared) && ValidTables(after)
    ensures |OfferedBy(after, system, user, p.app)| == if AsksNothing(p) then 1 else 0
  {
    TablesAfter(declared, proposals, p.app);
    OfferedAgain(declared, after, system, user, p);
  }

  /** An application that would be offered once it is declared. */
  predicate OfferedOnce(declared: Overrides, system: Disk, user: Disk, app: string) {
    |OfferedBy(declared, system, user, app)| == 1
  }

  /** What decides whether an application is offered after the first capture:
      its proposal, or for a newly declared one what it would have been offered. */
  predicate AppRule(known: bool, declared: Overrides, after: Overrides, system: Disk, user: Disk,
                    proposals: seq<Proposal>, app: string) {
    OfferedOnce(after, system, user, app) <==>
      if known then exists x <- proposals :: x.app == app && AsksNothing(x)
      else OfferedOnce(declared, system, user, app)
  }

  lemma AppAfter(declared: Overrides, after: Overrides, system: Disk, user: Disk, apps: seq<string>,
                 proposals: seq<Proposal>, app: string)
    requires NoDuplicates(apps) && proposals == Proposals(declared, system, user, apps)
    requires DeclareProposals(declared, proposals) == Some(after) && ValidTables(declared) && ValidTables(after)
    ensures AppRule(app in apps, declared, after, system, user, proposals, app)
  {
    ProposalsDistinct(declared, system, user, apps);
    if app in Proposed(proposals) {
      var x :| x in proposals && x.app == app;
      ProposalsAre(declared, system, user, apps, x);
      OneOffer(declared, system, user, app);
      TakenUp(declared, after, system, user, proposals, x);
      forall y | y in proposals && y.app == app ensures y == x {
        ProposalsAre(declared, system, user, apps, y);
      }
    } else {
      LeftAlone(declared, after, system, user, proposals, app);
      if app in apps && OfferedOnce(declared, system, user, app) {
        OneOffer(declared, system, user, app);
        NotLeftOut(declared, system, user, apps, app);
      }
    }
  }

  lemma NotLeftOut(declared: Overrides, system: Disk, user: Disk, apps: seq<string>, app: string)
    requires app in apps && OfferedOnce(declared, system, user, app)
    ensures app in Proposed(Proposals(declared, system, user, apps))
  {
    var per := OfferedBy(declared, system, user, app);
    OneOffer(declared, system, user, app);
    assert per == [per[0]];
    ProposalsAre(declared, system, user, apps, per[0]);
  }

  lemma SecondOffers(p: Packages, q: Packages, declared: Overrides, after: Overrides, system: Disk, user: Disk,
                     proposals: seq<Proposal>)
    requires proposals == Proposals(declared, system, user, Sorted(AppsIn(p))) && AppsIn(p) <= AppsIn(q)
    requires DeclareProposals(declared, proposals) == Some(after) && ValidTables(declared) && ValidTables(after)
    ensures Proposals(after, system, user, Sorted(AppsIn(q))) == [] <==>
              && (forall app <- AppsIn(q) - AppsIn(p) :: !OfferedOnce(declared, system, user, app))
              && (forall x <- proposals :: !AsksNothing(x))
  {
    var apps := Sorted(AppsIn(p));
    forall app | app in AppsIn(q)
      ensures AppRule(app in AppsIn(p), declared, after, system, user, proposals, app)
    {
      AppAfter(declared, after, system, user, apps, proposals, app);
    }
    forall x | x in proposals ensures x.app in AppsIn(p) {
      ProposalsAre(declared, system, user, apps, x);
    }
    NoneOffered(after, system, user, AppsIn(q));
    QuietEverywhere(AppsIn(p), AppsIn(q), declared, after, system, user, proposals);
  }

  lemma NoneOffered(declared: Overrides, system: Disk, user: Disk, apps: set<string>)
    ensures Proposals(declared, system, user, Sorted(apps)) == [] <==>
              forall app <- apps :: !OfferedOnce(declared, system, user, app)
  {
    NoProposals(declared, system, user, Sorted(apps));
  }

  lemma QuietEverywhere(before: set<string>, apps: set<string>, declared: Overrides, after: Overrides,
                        system: Disk, user: Disk, proposals: seq<Proposal>)
    requires before <= apps && forall x <- proposals :: x.app in before
    requires forall app <- apps :: AppRule(app in before, declared, after, system, user, proposals, app)
    ensures (forall app <- apps :: !OfferedOnce(after, system, user, app)) <==>
              && (forall app <- apps - before :: !OfferedOnce(declared, system, user, app))
              && (forall x <- proposals :: !AsksNothing(x))
  {
    if forall app <- apps :: !OfferedOnce(after, system, user, app) {
      forall x | x in proposals ensures !AsksNothing(x) {
        assert AppRule(x.app in before, declared, after, system, user, proposals, x.app);
      }
    }
  }

  lemma WritingMeans(p: Packages, declared: Overrides, items: seq<Item>, proposals: seq<Proposal>)
    requires ValidTables(declared) && Writing(p, declared, items, proposals).0.Captured?
    ensures var (_, q, after) := Writing(p, declared, items, proposals);
      q == Declared(p, items) && ValidTables(after) && DeclareProposals(declared, proposals) == Some(after)
  {}

  lemma UnnamedWrites(p: Packages, declared: Overrides, m: Machine, system: Disk, user: Disk)
    requires After(p, declared, m, system, user, []).0.Captured?
    ensures After(p, declared, m, system, user, [])
            == Writing(p, declared, ByDefault(AllCandidates(p, m)), ToPropose(p, declared, system, user, []))
  {}

  lemma SomePackages(p: Packages, declared: Overrides, m: Machine, system: Disk, user: Disk)
    requires ByDefault(AllCandidates(p, m)) != []
    ensures After(p, declared, m, system, user, [])
            == Writing(p, declared, ByDefault(AllCandidates(p, m)), ToPropose(p, declared, system, user, []))
  {}

  lemma AfterMeans(p: Packages, declared: Overrides, m: Machine, system: Disk, user: Disk)
    requires ValidTables(declared) && After(p, declared, m, system, user, []).0.Captured?
    ensures var (_, q, after) := After(p, declared, m, system, user, []);
      && q == Declared(p, ByDefault(AllCandidates(p, m))) && ValidTables(after)
      && DeclareProposals(declared, ToPropose(p, declared, system, user, [])) == Some(after)
  {
    UnnamedWrites(p, declared, m, system, user);
    WritingMeans(p, declared, ByDefault(AllCandidates(p, m)), ToPropose(p, declared, system, user, []));
  }

  lemma MoreApps(p: Packages, items: seq<Item>)
    ensures AppsIn(p) <= AppsIn(Declared(p, items))
  {
    DeclaredHolds(p, items, Flatpak);
    forall name | name in AppsIn(p) ensures name in AppsIn(Declared(p, items)) {
      assert name in Names(p, Flatpak);
    }
  }

  /** What a second capture without names finds, after one that was written: no
      package; and no permission exactly when no application the first one
      declared has unclaimed keys in one store alone, and no key it wrote asks for
      nothing. */
  lemma SecondCaptureFinds(p: Packages, declared: Overrides, m: Machine, system: Disk, user: Disk)
    requires ValidTables(declared) && After(p, declared, m, system, user, []).0.Captured?
    ensures var (_, q, after) := After(p, declared, m, system, user, []);
      var proposals := ToPropose(p, declared, system, user, []);
      && ByDefault(AllCandidates(q, m)) == []
      && (ToPropose(q, after, system, user, []) == [] <==>
            && (forall app <- AppsIn(q) - AppsIn(p) :: !OfferedOnce(declared, system, user, app))
            && (forall x <- proposals :: !AsksNothing(x)))
  {
    var (_, q, after) := After(p, declared, m, system, user, []);
    AfterMeans(p, declared, m, system, user);
    CaptureSettles(p, m);
    MoreApps(p, ByDefault(AllCandidates(p, m)));
    SecondOffers(p, q, declared, after, system, user, ToPropose(p, declared, system, user, []));
  }
}
