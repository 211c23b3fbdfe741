/** What the machine has and the declaration does not name (`candidates` in
    `src/inspect.rs`), and what `capture` (`src/capture.rs`) makes of it. */
module Candidates {
  import opened Text
  import opened Order
  import opened PackageEdits
  import opened Inventory

  datatype Candidate = Candidate(list: List, name: string, doomed: bool, promotes: bool)

  function ItemOf(c: Candidate): Item { Item(c.list, c.name) }

  // ----- the three sources -----

  function SystemApps(p: Packages, m: Machine, apps: seq<string>): seq<Candidate> {
    if apps == [] then []
    else
      (if apps[0] in p.flatpak then []
       else [Candidate(Flatpak, apps[0], ConvergenceRemoves(m, Flatpak, apps[0], p.flatpak), false)])
      + SystemApps(p, m, apps[1..])
  }

  /** Somebody's choice, or what convergence installed and would take back. */
  predicate Offered(p: Packages, m: Machine, formula: string) {
    formula !in p.brew && (ConvergenceRemoves(m, Brew, formula, p.brew) || formula in m.brewLeaves)
  }

  function Formulae(p: Packages, m: Machine, formulae: seq<string>): seq<Candidate> {
    if formulae == [] then []
    else
      (if !Offered(p, m, formulae[0]) then []
       else [Candidate(Brew, formulae[0], ConvergenceRemoves(m, Brew, formulae[0], p.brew), false)])
      + Formulae(p, m, formulae[1..])
  }

  predicate InSystem(m: Machine, app: string) { m.flatpakSystem.Some? && app in m.flatpakSystem.value }

  function UserApps(p: Packages, m: Machine, apps: seq<string>): seq<Candidate> {
    if apps == [] then []
    else
      (if apps[0] in p.flatpak || InSystem(m, apps[0]) then [] else [Candidate(Flatpak, apps[0], false, true)])
      + UserApps(p, m, apps[1..])
  }

  predicate Installed(m: Machine, formula: string) {
    m.brewInstalled.Some? && formula in m.brewInstalled.value
  }

  function Each(s: Option<set<string>>): seq<string> { if s.Some? then Sorted(s.value) else [] }

  function Found(p: Packages, m: Machine): seq<Candidate> {
    SystemApps(p, m, Each(m.flatpakSystem)) + Formulae(p, m, Each(m.brewInstalled))
    + UserApps(p, m, Sorted(m.flatpakUser))
  }

  // ----- the order -----

  function ListRank(list: List): int {
    match list
    case Brew => 0
    case Flatpak => 1
    case Rpm => 2
  }

  /** Urgent first, opt-in last, then by list and name. */
  predicate Before(a: Candidate, b: Candidate) {
    if a.doomed != b.doomed then a.doomed
    else if a.promotes != b.promotes then b.promotes
    else if a.list != b.list then ListRank(a.list) < ListRank(b.list)
    else AtMost(a.name, b.name)
  }

  lemma BeforeTotal(a: Candidate, b: Candidate)
    ensures Before(a, b) || Before(b, a)
  {
    AtMostTotal(a.name, b.name);
  }

  lemma BeforeTransitive(a: Candidate, b: Candidate, c: Candidate)
    requires Before(a, b) && Before(b, c)
    ensures Before(a, c)
  {
    if a.name != b.name || b.name != c.name {
      if AtMost(a.name, b.name) && AtMost(b.name, c.name) {
        AtMostTransitive(a.name, b.name, c.name);
      }
    }
  }

  predicate Ranked(cs: seq<Candidate>) { forall i, j | 0 <= i < j < |cs| :: Before(cs[i], cs[j]) }

  function Insert(c: Candidate, cs: seq<Candidate>): seq<Candidate> {
    if cs == [] then [c]
    else if Before(c, cs[0]) then [c] + cs
    else [cs[0]] + Insert(c, cs[1..])
  }

  /** A stable sort. */
  function Rank(cs: seq<Candidate>): seq<Candidate> {
    if cs == [] then [] else Insert(cs[0], Rank(cs[1..]))
  }

  lemma {:induction false} InsertHolds(c: Candidate, cs: seq<Candidate>)
    ensures multiset(Insert(c, cs)) == multiset(cs) + multiset{c}
    ensures forall x :: x in Insert(c, cs) <==> x == c || x in cs
  {
    if cs != [] {
      assert cs == [cs[0]] + cs[1..];
      InsertHolds(c, cs[1..]);
    }
  }

  lemma RankedCons(c: Candidate, cs: seq<Candidate>)
    requires Ranked(cs) && forall x <- cs :: Before(c, x)
    ensures Ranked([c] + cs)
  {}

  lemma FirstIsBefore(cs: seq<Candidate>, x: Candidate)
    requires cs != [] && Ranked(cs) && x in cs[1..]
    ensures Before(cs[0], x)
  {
    var j :| 0 <= j < |cs[1..]| && cs[1..][j] == x;
    assert Before(cs[0], cs[j + 1]);
  }

  lemma {:induction false} InsertRanks(c: Candidate, cs: seq<Candidate>)
    requires Ranked(cs)
    ensures Ranked(Insert(c, cs))
  {
    if cs == [] {
    } else if Before(c, cs[0]) {
      forall x | x in cs ensures Before(c, x) {
        if x != cs[0] {
          FirstIsBefore(cs, x);
          BeforeTransitive(c, cs[0], x);
        }
      }
      RankedCons(c, cs);
    } else {
      BeforeTotal(c, cs[0]);
      InsertRanks(c, cs[1..]);
      InsertHolds(c, cs[1..]);
      forall x | x in Insert(c, cs[1..]) ensures Before(cs[0], x) {
        if x != c {
          FirstIsBefore(cs, x);
        }
      }
      RankedCons(cs[0], Insert(c, cs[1..]));
    }
  }

  lemma {:induction false} RankRanks(cs: seq<Candidate>)
    ensures Ranked(Rank(cs)) && multiset(Rank(cs)) == multiset(cs)
    ensures forall x :: x in Rank(cs) <==> x in cs
  {
    if cs != [] {
      RankRanks(cs[1..]);
      InsertRanks(cs[0], Rank(cs[1..]));
      InsertHolds(cs[0], Rank(cs[1..]));
      assert cs == [cs[0]] + cs[1..];
    }
  }

  function AllCandidates(p: Packages, m: Machine): seq<Candidate> { Rank(Found(p, m)) }

  method FindCandidates(p: Packages, m: Machine) returns (out: seq<Candidate>)
    ensures out == AllCandidates(p, m)
  {
    out := [];
    if m.flatpakSystem.Some? {
      var apps := Sorted(m.flatpakSystem.value);
      for i := 0 to |apps|
        invariant out + SystemApps(p, m, apps[i..]) == SystemApps(p, m, apps)
      {
        assert apps[i..][0] == apps[i] && apps[i..][1..] == apps[i + 1..];
        if apps[i] !in p.flatpak {
          var c := Candidate(Flatpak, apps[i], ConvergenceRemoves(m, Flatpak, apps[i], p.flatpak), false);
          SeqAssociative(out, [c], SystemApps(p, m, apps[i + 1..]));
          out := out + [c];
        } else {
          assert [] + SystemApps(p, m, apps[i + 1..]) == SystemApps(p, m, apps[i + 1..]);
        }
      }
    }
    ghost var system := SystemApps(p, m, Each(m.flatpakSystem));
    assert out == system;
    if m.brewInstalled.Some? {
      var formulae := Sorted(m.brewInstalled.value);
      for i := 0 to |formulae|
        invariant out + Formulae(p, m, formulae[i..]) == system + Formulae(p, m, formulae)
      {
        assert formulae[i..][0] == formulae[i] && formulae[i..][1..] == formulae[i + 1..];
        var f, rest := formulae[i], Formulae(p, m, formulae[i + 1..]);
        if f in p.brew {
          assert [] + rest == rest;
          continue;
        }
        var doomed := ConvergenceRemoves(m, Brew, f, p.brew);
        if !doomed && f !in m.brewLeaves {
          assert [] + rest == rest;
          continue;
        }
        SeqAssociative(out, [Candidate(Brew, f, doomed, false)], rest);
        out := out + [Candidate(Brew, f, doomed, false)];
      }
    }
    ghost var both := system + Formulae(p, m, Each(m.brewInstalled));
    assert out == both;
    var users := Sorted(m.flatpakUser);
    for i := 0 to |users|
      invariant out + UserApps(p, m, users[i..]) == both + UserApps(p, m, users)
    {
      assert users[i..][0] == users[i] && users[i..][1..] == users[i + 1..];
      var rest := UserApps(p, m, users[i + 1..]);
      if users[i] in p.flatpak || InSystem(m, users[i]) {
        assert [] + rest == rest;
        continue;
      }
      SeqAssociative(out, [Candidate(Flatpak, users[i], false, true)], rest);
      out := out + [Candidate(Flatpak, users[i], false, true)];
    }
    assert out == Found(p, m);
    out := Rank(out);
  }

  // ----- who is a candidate -----

  /** The one candidate there can be for an item, as the source means it. */
  predicate IsCandidate(p: Packages, m: Machine, c: Candidate) {
    match c.list
    case Rpm => false
    case Brew =>
      && m.brewInstalled.Some? && c.name in m.brewInstalled.value && c.name !in p.brew
      && (c.name in m.brewState || c.name in m.brewLeaves)
      && (c.doomed <==> c.name in m.brewState) && !c.promotes
    case Flatpak =>
      var system := m.flatpakSystem.Some? && c.name in m.flatpakSystem.value;
      && c.name !in p.flatpak
      && if c.promotes then c.name in m.flatpakUser && !system && !c.doomed
         else system && (c.doomed <==> c.name in m.flatpakState)
  }

  lemma {:induction false} SystemAppsAre(p: Packages, m: Machine, apps: seq<string>)
    ensures forall c :: c in SystemApps(p, m, apps) <==>
              c.list == Flatpak && c.name in apps && c.name !in p.flatpak && !c.promotes &&
              c.doomed == ConvergenceRemoves(m, Flatpak, c.name, p.flatpak)
  {
    if apps != [] {
      SystemAppsAre(p, m, apps[1..]);
    }
  }

  lemma {:induction false} FormulaeAre(p: Packages, m: Machine, formulae: seq<string>)
    ensures forall c :: c in Formulae(p, m, formulae) <==>
              c.list == Brew && c.name in formulae && Offered(p, m, c.name) && !c.promotes &&
              c.doomed == ConvergenceRemoves(m, Brew, c.name, p.brew)
  {
    if formulae != [] {
      FormulaeAre(p, m, formulae[1..]);
    }
  }

  lemma {:induction false} UserAppsAre(p: Packages, m: Machine, apps: seq<string>)
    ensures forall c :: c in UserApps(p, m, apps) <==>
              c.list == Flatpak && c.name in apps && c.name !in p.flatpak && !InSystem(m, c.name) &&
              c.promotes && !c.doomed
  {
    if apps != [] {
      UserAppsAre(p, m, apps[1..]);
    }
  }

  lemma CandidatesAre(p: Packages, m: Machine, c: Candidate)
    ensures c in AllCandidates(p, m) <==> IsCandidate(p, m, c)
  {
    SystemAppsAre(p, m, Each(m.flatpakSystem));
    FormulaeAre(p, m, Each(m.brewInstalled));
    UserAppsAre(p, m, Sorted(m.flatpakUser));
    RankRanks(Found(p, m));
  }

  /** Doomed first, by-name-only last; in between formulae before flatpaks, each
      list by name. */
  predicate InBands(a: Candidate, b: Candidate) {
    && (b.doomed ==> a.doomed) && (a.promotes ==> b.promotes)
    && (a.doomed == b.doomed && a.promotes == b.promotes ==>
          if a.list == b.list then AtMost(a.name, b.name) else a.list == Brew)
  }

  /** What convergence installed and nobody declares is offered, before
      everything it would leave alone; what capture takes only by name comes
      last. */
  lemma DoomedAreOfferedFirst(p: Packages, m: Machine)
    ensures forall f :: Installed(m, f) && f in m.brewState && f !in p.brew ==>
              Candidate(Brew, f, true, false) in AllCandidates(p, m)
    ensures forall a :: InSystem(m, a) && a in m.flatpakState && a !in p.flatpak ==>
              Candidate(Flatpak, a, true, false) in AllCandidates(p, m)
    ensures var cs := AllCandidates(p, m); forall i, j | 0 <= i < j < |cs| :: InBands(cs[i], cs[j])
  {
    RankRanks(Found(p, m));
    forall f | Installed(m, f) && f in m.brewState && f !in p.brew
      ensures Candidate(Brew, f, true, false) in AllCandidates(p, m)
    {
      CandidatesAre(p, m, Candidate(Brew, f, true, false));
    }
    forall a | InSystem(m, a) && a in m.flatpakState && a !in p.flatpak
      ensures Candidate(Flatpak, a, true, false) in AllCandidates(p, m)
    {
      CandidatesAre(p, m, Candidate(Flatpak, a, true, false));
    }
    var cs := AllCandidates(p, m);
    forall i, j | 0 <= i < j < |cs| ensures InBands(cs[i], cs[j]) {
      CandidatesAre(p, m, cs[i]);
      CandidatesAre(p, m, cs[j]);
      assert Before(cs[i], cs[j]);
    }
  }

  // ----- declaring takes candidates away, and nothing else -----

  function Without(cs: seq<Candidate>, items: seq<Item>): seq<Candidate> {
    if cs == [] then []
    else (if ItemOf(cs[0]) in items then [] else [cs[0]]) + Without(cs[1..], items)
  }

  lemma {:induction false} WithoutAppend(a: seq<Candidate>, b: seq<Candidate>, items: seq<Item>)
    ensures Without(a + b, items) == Without(a, items) + Without(b, items)
  {
    if a == [] {
      assert a + b == b;
    } else {
      assert (a + b)[1..] == a[1..] + b;
      WithoutAppend(a[1..], b, items);
    }
  }

  lemma {:induction false} WithoutHolds(cs: seq<Candidate>, items: seq<Item>)
    ensures forall c :: c in Without(cs, items) <==> c in cs && ItemOf(c) !in items
  {
    if cs != [] {
      WithoutHolds(cs[1..], items);
    }
  }

  lemma {:induction false} InsertFirst(c: Candidate, cs: seq<Candidate>)
    requires forall x <- cs :: Before(c, x)
    ensures Insert(c, cs) == [c] + cs
  {
    if cs != [] {
      assert cs[0] in cs;
    }
  }

  lemma {:induction false} WithoutInsert(c: Candidate, cs: seq<Candidate>, items: seq<Item>)
    requires Ranked(cs)
    ensures Without(Insert(c, cs), items)
            == if ItemOf(c) in items then Without(cs, items) else Insert(c, Without(cs, items))
  {
    if cs == [] {
      assert [c][1..] == [];
    } else if Before(c, cs[0]) {
      assert ([c] + cs)[1..] == cs;
      forall x | x in cs ensures Before(c, x) {
        var i :| 0 <= i < |cs| && cs[i] == x;
        if i > 0 {
          BeforeTransitive(c, cs[0], x);
        }
      }
      WithoutHolds(cs, items);
      InsertFirst(c, Without(cs, items));
    } else {
      var first, rest := cs[0], cs[1..];
      assert cs == [first] + rest;
      WithoutInsert(c, rest, items);
      WithoutStep(first, rest, items);
      WithoutStep(first, Insert(c, rest), items);
      InsertLater(c, first, Without(rest, items));
    }
  }

  lemma InsertLater(c: Candidate, first: Candidate, rest: seq<Candidate>)
    requires !Before(c, first)
    ensures Insert(c, [first] + rest) == [first] + Insert(c, rest)
  {
    assert ([first] + rest)[1..] == rest;
  }

  lemma RankStep(c: Candidate, cs: seq<Candidate>)
    ensures Rank([c] + cs) == Insert(c, Rank(cs)) && Ranked(Rank(cs))
  {
    assert ([c] + cs)[1..] == cs;
    RankRanks(cs);
  }

  lemma {:induction false} WithoutRank(cs: seq<Candidate>, items: seq<Item>)
    ensures Without(Rank(cs), items) == Rank(Without(cs, items))
  {
    if cs != [] {
      var first, rest := cs[0], cs[1..];
      assert cs == [first] + rest;
      WithoutRank(rest, items);
      RankStep(first, rest);
      WithoutInsert(first, Rank(rest), items);
      WithoutStep(first, rest, items);
      RankStep(first, Without(rest, items));
    }
  }

  lemma {:induction false} SystemAppsAfter(p: Packages, items: seq<Item>, m: Machine, apps: seq<string>)
    ensures SystemApps(Declared(p, items), m, apps) == Without(SystemApps(p, m, apps), items)
  {
    if apps != [] {
      SystemAppsAfter(p, items, m, apps[1..]);
      DeclaredHolds(p, items, Flatpak);
      var q := Declared(p, items);
      var first := Candidate(Flatpak, apps[0], ConvergenceRemoves(m, Flatpak, apps[0], p.flatpak), false);
      assert apps[0] in q.flatpak <==> apps[0] in p.flatpak || Item(Flatpak, apps[0]) in items;
      WithoutStep(first, SystemApps(p, m, apps[1..]), items);
    }
  }

  lemma WithoutStep(c: Candidate, rest: seq<Candidate>, items: seq<Item>)
    ensures Without([c] + rest, items)
            == if ItemOf(c) in items then Without(rest, items) else [c] + Without(rest, items)
    ensures Without([] + rest, items) == Without(rest, items)
  {
    assert ([c] + rest)[1..] == rest;
    assert [] + rest == rest;
  }

  lemma {:induction false} FormulaeAfter(p: Packages, items: seq<Item>, m: Machine, formulae: seq<string>)
    ensures Formulae(Declared(p, items), m, formulae) == Without(Formulae(p, m, formulae), items)
  {
    if formulae != [] {
      FormulaeAfter(p, items, m, formulae[1..]);
      DeclaredHolds(p, items, Brew);
      var q := Declared(p, items);
      var first := Candidate(Brew, formulae[0], ConvergenceRemoves(m, Brew, formulae[0], p.brew), false);
      assert formulae[0] in q.brew <==> formulae[0] in p.brew || Item(Brew, formulae[0]) in items;
      WithoutStep(first, Formulae(p, m, formulae[1..]), items);
    }
  }

  lemma {:induction false} UserAppsAfter(p: Packages, items: seq<Item>, m: Machine, apps: seq<string>)
    ensures UserApps(Declared(p, items), m, apps) == Without(UserApps(p, m, apps), items)
  {
    if apps != [] {
      UserAppsAfter(p, items, m, apps[1..]);
      DeclaredHolds(p, items, Flatpak);
      var q := Declared(p, items);
      assert apps[0] in q.flatpak <==> apps[0] in p.flatpak || Item(Flatpak, apps[0]) in items;
      WithoutStep(Candidate(Flatpak, apps[0], false, true), UserApps(p, m, apps[1..]), items);
    }
  }

  /** Declaring any items removes exactly their candidates: the rest stay, in
      their order, with the grades they had. */
  lemma DeclaringSettles(p: Packages, m: Machine, items: seq<Item>)
    ensures AllCandidates(Declared(p, items), m) == Without(AllCandidates(p, m), items)
  {
    var s, f, u := Each(m.flatpakSystem), Each(m.brewInstalled), Sorted(m.flatpakUser);
    SystemAppsAfter(p, items, m, s);
    FormulaeAfter(p, items, m, f);
    UserAppsAfter(p, items, m, u);
    WithoutAppend(SystemApps(p, m, s) + Formulae(p, m, f), UserApps(p, m, u), items);
    WithoutAppend(SystemApps(p, m, s), Formulae(p, m, f), items);
    WithoutRank(Found(p, m), items);
  }

  // ----- capture -----

  /** What a capture without names takes. */
  function ByDefault(cs: seq<Candidate>): seq<Item> {
    if cs == [] then []
    else (if cs[0].promotes then [] else [ItemOf(cs[0])]) + ByDefault(cs[1..])
  }

  function OnlyByName(cs: seq<Candidate>): seq<Candidate> {
    if cs == [] then []
    else (if cs[0].promotes then [cs[0]] else []) + OnlyByName(cs[1..])
  }

  function FirstNamed(cs: seq<Candidate>, name: string): Option<Item> {
    if cs == [] then None
    else if cs[0].name == name then Some(ItemOf(cs[0]))
    else FirstNamed(cs[1..], name)
  }

  /** The items the names pick out, all of them or none. A name of an app whose
      permissions are proposed picks no package. */
  function Picked(cs: seq<Candidate>, proposed: set<string>, names: seq<string>): Option<seq<Item>> {
    if names == [] then Some([])
    else if names[0] in proposed then Picked(cs, proposed, names[1..])
    else
      match (FirstNamed(cs, names[0]), Picked(cs, proposed, names[1..]))
      case (Some(item), Some(more)) => Some([item] + more)
      case _ => None
  }

  function Selected(cs: seq<Candidate>, proposed: set<string>, names: seq<string>): Option<seq<Item>> {
    if names == [] then Some(ByDefault(cs)) else Picked(cs, proposed, names)
  }

  method Select(found: seq<Candidate>, proposed: set<string>, names: seq<string>) returns (items: Option<seq<Item>>)
    ensures items == Selected(found, proposed, names)
  {
    if names != [] {
      return Picked(found, proposed, names);
    }
    var taken := [];
    for i := 0 to |found|
      invariant taken + ByDefault(found[i..]) == ByDefault(found)
    {
      assert found[i..][0] == found[i] && found[i..][1..] == found[i + 1..];
      var rest := ByDefault(found[i + 1..]);
      if !found[i].promotes {
        SeqAssociative(taken, [ItemOf(found[i])], rest);
        taken := taken + [ItemOf(found[i])];
      } else {
        assert [] + rest == rest;
      }
    }
    assert taken == ByDefault(found);
    items := Some(taken);
  }

  lemma {:induction false} ByDefaultIs(cs: seq<Candidate>)
    ensures forall item :: item in ByDefault(cs) <==> exists c :: c in cs && !c.promotes && ItemOf(c) == item
  {
    if cs != [] {
      ByDefaultIs(cs[1..]);
      assert cs == [cs[0]] + cs[1..];
    }
  }

  predicate PromotesApart(cs: seq<Candidate>, items: seq<Item>) {
    forall c <- cs :: c.promotes <==> ItemOf(c) !in items
  }

  lemma {:induction false} LeftByName(cs: seq<Candidate>, items: seq<Item>)
    requires PromotesApart(cs, items)
    ensures Without(cs, items) == OnlyByName(cs)
  {
    if cs != [] {
      assert cs[0] in cs;
      LeftByName(cs[1..], items);
    }
  }

  lemma {:induction false} OnlyByNameAre(cs: seq<Candidate>)
    ensures forall c <- OnlyByName(cs) :: c in cs && c.promotes
    ensures ByDefault(OnlyByName(cs)) == []
  {
    if cs != [] {
      var rest := OnlyByName(cs[1..]);
      OnlyByNameAre(cs[1..]);
      assert ([cs[0]] + rest)[1..] == rest && [] + rest == rest;
    }
  }

  /** For the package lists a capture without names is a fixed point that rescues
      everything doomed: what is left to offer are the entries it takes only by
      name, none of them doomed, and a second capture has no package to add. */
  lemma CaptureSettles(p: Packages, m: Machine)
    ensures var items := ByDefault(AllCandidates(p, m));
      var after := AllCandidates(Declared(p, items), m);
      && after == OnlyByName(AllCandidates(p, m))
      && (forall c <- after :: !c.doomed && c.promotes)
      && ByDefault(after) == []
  {
    var cs := AllCandidates(p, m);
    var items := ByDefault(cs);
    DeclaringSettles(p, m, items);
    ByDefaultIs(cs);
    forall c | c in cs ensures c.promotes <==> ItemOf(c) !in items {
      CandidatesAre(p, m, c);
      forall d | d in cs && !d.promotes ensures c.promotes ==> ItemOf(d) != ItemOf(c) {
        CandidatesAre(p, m, d);
      }
    }
    LeftByName(cs, items);
    OnlyByNameAre(cs);
    forall c | c in OnlyByName(cs) ensures !c.doomed {
      CandidatesAre(p, m, c);
    }
  }

  /** After it convergence has nothing left to take away. */
  lemma NothingIsDoomed(p: Packages, m: Machine)
    ensures var q := Declared(p, ByDefault(AllCandidates(p, m)));
      && (forall a :: InSystem(m, a) && a in m.flatpakState ==> a in q.flatpak)
      && (forall f :: Installed(m, f) && f in m.brewState ==> f in q.brew)
  {
    CaptureSettles(p, m);
    DoomedAreOfferedFirst(Declared(p, ByDefault(AllCandidates(p, m))), m);
  }

  /** The item is the first candidate of its name. */
  predicate IsFirst(cs: seq<Candidate>, item: Item) {
    exists i :: 0 <= i < |cs| && ItemOf(cs[i]) == item && forall j | 0 <= j < i :: cs[j].name != item.name
  }

  /** A capture by name picks the first candidate for each name it was given. */
  lemma {:induction false} PickedAre(cs: seq<Candidate>, proposed: set<string>, names: seq<string>)
    ensures Picked(cs, proposed, names).Some? <==>
              forall n <- names :: n in proposed || exists c <- cs :: c.name == n
    ensures Picked(cs, proposed, names).Some? ==>
              && (forall item <- Picked(cs, proposed, names).value :: item.name in names && IsFirst(cs, item))
              && (forall n <- names ::
                    n in proposed || exists item <- Picked(cs, proposed, names).value :: item.name == n)
  {
    if names != [] {
      PickedAre(cs, proposed, names[1..]);
      FirstNamedIs(cs, names[0]);
      assert names == [names[0]] + names[1..];
    }
  }

  lemma {:induction false} FirstNamedIs(cs: seq<Candidate>, name: string)
    ensures FirstNamed(cs, name).Some? <==> exists c <- cs :: c.name == name
    ensures FirstNamed(cs, name).Some? ==>
              FirstNamed(cs, name).value.name == name && IsFirst(cs, FirstNamed(cs, name).value)
  {
    if cs != [] {
      FirstNamedIs(cs[1..], name);
      assert cs == [cs[0]] + cs[1..];
      if cs[0].name != name && FirstNamed(cs, name).Some? {
        FirstIsLater(cs, FirstNamed(cs, name).value);
      }
    }
  }

  lemma FirstIsLater(cs: seq<Candidate>, item: Item)
    requires cs != [] && cs[0].name != item.name && IsFirst(cs[1..], item)
    ensures IsFirst(cs, item)
  {
    var rest := cs[1..];
    var i :| 0 <= i < |rest| && ItemOf(rest[i]) == item && forall j | 0 <= j < i :: rest[j].name != item.name;
    assert forall j | 0 < j < i + 1 :: cs[j] == rest[j - 1];
    assert ItemOf(cs[i + 1]) == item;
  }
}
