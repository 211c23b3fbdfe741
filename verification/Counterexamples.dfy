/** Inputs on which a promise about captured and converged permissions fails:
    one variable of one application, held, declared or owned. */
module Counterexamples {
  import opened Text
  import opened Order
  import opened Convergence
  import opened Declaration
  import opened OwnershipRecord
  import opened OverrideStore
  import opened Drifting
  import opened CapturedOverrides
  import opened PackageEdits
  import opened Inventory
  import opened Candidates
  import opened Captures

  const SMALL := AppOverride(System, [], [], [], [], [], [], map["A" := "1"], map[], map[])
  const KEY := (ENVIRONMENT, "A")

  /** The file an image bakes from it. */
  function Baked(): string { Bake(DeclaredKeys(SMALL)) }

  function SmallId(): string { OwnedId(ENVIRONMENT, "A") }

  lemma SmallIsValid()
    ensures Valid(SMALL) && ValuesEndWell(SMALL)
  {
    assert "A" in SMALL.environment && "A"[0] in "A";
    assert Clean("1") && !IsSpace("1"[0]);
  }

  lemma SmallAsks(group: string, key: string)
    ensures Asked(DeclaredKeys(SMALL), group, key) == if (group, key) == KEY then Some("1") else None
  {
    AskedIsValue(SMALL, group, key);
    ListsByName(SMALL, key);
    GroupNames();
  }

  lemma BakedReads()
    ensures ParseDeclared(Baked()) == DeclaredKeys(SMALL) && LegalBaked(Baked())
  {
    SmallIsValid();
    BakedDeclarationIsReadBack(SMALL);
    BakedIsLegal(SMALL);
  }

  lemma InTable(k: (string, string))
    ensures var table := Table(DeclaredKeys(SMALL)); (k in table <==> k == KEY) && (k in table ==> table[k] == "1")
  {
    TableIsAsked(DeclaredKeys(SMALL), k.0, k.1);
    SmallAsks(k.0, k.1);
  }

  lemma TableIsSmall()
    ensures Table(ParseDeclared(Baked())) == map[KEY := "1"]
  {
    BakedReads();
    var table := Table(DeclaredKeys(SMALL));
    forall k ensures (k in table <==> k == KEY) && (k in table ==> table[k] == "1") {
      InTable(k);
    }
  }

  lemma KeyIsRepresentable()
    ensures Representable(ENVIRONMENT, "A") && '\t' !in ENVIRONMENT
    ensures SplitId(SmallId()) == Some(KEY) && Clean(SmallId())
  {
    GroupNames();
    assert "A"[0] in "A" && IsAlnum("A"[0]) && Clean("A");
    SplitOwnedId(ENVIRONMENT, "A");
  }

  // ----- a key the other store still owns -----

  /** The store holds the key. */
  const HELD := Disk(map[], map["x" := Baked()], None)

  /** It holds the key, and kuma set it there for a declaration since gone. */
  const OWNED := Disk(map[], map["x" := Baked()], Some(WriteState(map["x" := [SmallId()]])))

  lemma OwnedReads()
    ensures Previous(OWNED) == map["x" := [SmallId()]]
  {
    KeyIsRepresentable();
    var owned: Owned := map["x" := [SmallId()]];
    assert owned["x"] != [] && Clean("x");
    StateRoundTrip(owned);
  }

  lemma OfferedKey(scope: Scope, d: Disk, k: (string, string))
    requires Live(d.files, "x") == map[KEY := "1"]
    ensures k in Offer(map[], scope, d, "x") <==> k == KEY && SmallId() !in IdsOf(Previous(d), "x")
  {
    KeyIsRepresentable();
  }

  lemma OfferOfOne(scope: Scope, d: Disk)
    requires Live(d.files, "x") == map[KEY := "1"]
    ensures Offer(map[], scope, d, "x") == if SmallId() in IdsOf(Previous(d), "x") then map[] else map[KEY := "1"]
  {
    var offer := Offer(map[], scope, d, "x");
    forall k ensures k in offer <==> k == KEY && SmallId() !in IdsOf(Previous(d), "x") {
      OfferedKey(scope, d, k);
    }
  }

  lemma OfferedToTheUser()
    ensures Offer(map[], System, OWNED, "x") == map[] && Offer(map[], User, HELD, "x") == map[KEY := "1"]
  {
    OwnedReads();
    TableIsSmall();
    assert Previous(HELD) == map[];
    OfferOfOne(System, OWNED);
    OfferOfOne(User, HELD);
  }

  function UserProposal(): Proposal { Proposal("x", User, map[KEY := "1"]) }

  lemma ForOne(id: string, k: (string, string), keys: LiveKeys)
    requires SplitId(id) == Some(k) && k in keys
    ensures EntriesFor([id], keys) == [Entry(k.0, k.1, keys[k])]
  {
    assert [id][1..] == [] && EntriesFor([], keys) == [];
  }

  lemma OneEntry()
    ensures EntriesOf(map[KEY := "1"]) == [Entry(ENVIRONMENT, "A", "1")]
  {
    KeyIsRepresentable();
    var keys: LiveKeys := map[KEY := "1"];
    assert IdsIn(keys) == {SmallId()};
    SortedOne(SmallId());
    ForOne(SmallId(), KEY, keys);
  }

  lemma DeclareOnly(app: AppOverride, e: Entry)
    ensures DeclareEach(app, [e]) == Declare(app, e)
  {
    assert [e][1..] == [];
  }

  lemma UserTable()
    ensures TableFor(map[], "x", User) == UNDECLARED.(scope := User)
    ensures Declare(UNDECLARED.(scope := User), Entry(ENVIRONMENT, "A", "1"))
            == Some(SMALL.(scope := User))
  {
    GroupNames();
  }

  lemma UserTableKeeps()
    ensures DeclareAll(map[], UserProposal()) == Some(map["x" := SMALL.(scope := User)])
    ensures Valid(SMALL.(scope := User))
  {
    OneEntry();
    UserTable();
    DeclareOnly(UNDECLARED.(scope := User), Entry(ENVIRONMENT, "A", "1"));
    SmallIsValid();
  }

  lemma UserOnly(system: Disk, user: Disk, keys: LiveKeys)
    requires Offer(map[], System, system, "x") == map[] && Offer(map[], User, user, "x") == keys != map[]
    ensures OfferedBy(map[], system, user, "x") == [Proposal("x", User, keys)]
    ensures IsOffer(map[], system, user, Proposal("x", User, keys))
  {
    assert [] + [Proposal("x", User, keys)] == [Proposal("x", User, keys)];
  }

  lemma OfferedOnlyThere()
    ensures OfferedBy(map[], OWNED, HELD, "x") == [UserProposal()]
    ensures IsOffer(map[], OWNED, HELD, UserProposal())
  {
    OfferedToTheUser();
    var keys: LiveKeys := map[KEY := "1"];
    assert KEY in keys;
    UserOnly(OWNED, HELD, keys);
  }

  lemma OwnedIsStillOwned()
    ensures StillOwned(OWNED, "x", KEY)
  {
    OwnedReads();
    TableIsSmall();
  }

  /** The user's store is proposed and captured, and `kuma diff` goes on listing
      the key: the system's store still holds it for kuma. */
  lemma ACapturedKeyIsStillListed()
    ensures OfferedBy(map[], OWNED, HELD, "x") == [UserProposal()] && DeclareAll(map[], UserProposal()).Some?
    ensures Listed(DeclareAll(map[], UserProposal()).value, OWNED, HELD, "x", KEY)
  {
    OfferedOnlyThere();
    UserTableKeeps();
    OwnedIsStillOwned();
    CapturedShowsNoDrift(map[], OWNED, HELD, UserProposal(), KEY);
  }

  // ----- a second capture with something to add -----

  const BARE := Packages([], [], [])

  const STORE_APP := Machine(Some({"x"}), {}, {}, None, {}, {})

  const NO_STORE := Disk(map[], map[], None)

  lemma OnlyTheApp()
    ensures ByDefault(AllCandidates(BARE, STORE_APP)) == [Item(Flatpak, "x")]
    ensures Declared(BARE, [Item(Flatpak, "x")]) == Packages([], ["x"], [])
  {
    SortedOne("x");
    assert Each(STORE_APP.flatpakSystem) == ["x"];
    var c := Candidate(Flatpak, "x", false, false);
    assert ["x"][1..] == [] && SystemApps(BARE, STORE_APP, ["x"]) == [c];
    assert Candidates.Found(BARE, STORE_APP) == [c];
    assert [c][1..] == [] && Rank([c]) == [c] && ByDefault([c]) == [Item(Flatpak, "x")];
    assert [Item(Flatpak, "x")][1..] == [];
  }

  lemma NothingInstalledNothingOffered()
    ensures ToPropose(BARE, map[], NO_STORE, HELD, []) == []
  {
    assert AppsIn(BARE) == {};
  }

  lemma AppIsStorable()
    ensures Storable(Packages([], ["x"], [])) && AppsIn(Packages([], ["x"], [])) == {"x"}
  {
    assert "x"[0] in "x" && IsAlnum("x"[0]);
  }

  lemma FirstTakesTheApp()
    ensures After(BARE, map[], STORE_APP, NO_STORE, HELD, []) == (Captured, Packages([], ["x"], []), map[])
  {
    OnlyTheApp();
    NothingInstalledNothingOffered();
    AppIsStorable();
    SomePackages(BARE, map[], STORE_APP, NO_STORE, HELD);
    assert DeclareProposals(map[], []) == Some(map[]);
  }

  lemma OfferedInOneStore()
    ensures OfferedBy(map[], NO_STORE, HELD, "x") == [UserProposal()]
  {
    OfferedToTheUser();
    NothingInAnEmptyStore();
    var keys: LiveKeys := map[KEY := "1"];
    assert KEY in keys;
    UserOnly(NO_STORE, HELD, keys);
  }

  lemma ProposalsOfOne(declared: Overrides, system: Disk, user: Disk, p: Proposal)
    requires OfferedBy(declared, system, user, "x") == [p]
    ensures Proposals(declared, system, user, ["x"]) == [p]
  {
    assert ["x"][1..] == [] && Proposals(declared, system, user, []) == [] && [p] + [] == [p];
  }

  /** The first capture declares an application from a store; only then are its
      permissions asked about, and the second capture writes them. */
  lemma ASecondCaptureAdds()
    ensures var (result, q, after) := After(BARE, map[], STORE_APP, NO_STORE, HELD, []);
      result.Captured? && ToPropose(q, after, NO_STORE, HELD, []) == [UserProposal()]
  {
    FirstTakesTheApp();
    AppIsStorable();
    OfferedInOneStore();
    SortedOne("x");
    ProposalsOfOne(map[], NO_STORE, HELD, UserProposal());
  }

  lemma NothingInAnEmptyStore()
    ensures Offer(map[], System, NO_STORE, "x") == map[]
  {
    ParseEmpty();
    assert Table(ParseDeclared("")) == map[];
  }

  // ----- a key a failed pass forgets -----

  const IMAGE := Disk(map["x" := Baked()], map[], None)

  function NewMachine(): World { World(IMAGE, DeclaredBy(IMAGE.baked), map[]) }

  lemma NewIsFresh(baked: map<string, string>)
    requires LegalImage(baked)
    ensures Fresh(World(Disk(baked, map[], None), DeclaredBy(baked), map[]))
  {}

  lemma ImageIsLegal()
    ensures LegalImage(IMAGE.baked)
  {
    BakedReads();
    assert Clean("x");
  }

  lemma NewMachineIsFresh()
    ensures Fresh(NewMachine()) && Inv(NewMachine())
  {
    ImageIsLegal();
    NewIsFresh(IMAGE.baked);
    FreshIsInv(NewMachine());
  }

  lemma VisitsBaked(d: Disk, app: string)
    requires d.record.None? && d.baked.Keys == {app}
    ensures Visiting(d) == [app]
  {
    assert Apps(d) == {app};
    SortedOne(app);
  }

  lemma OneVisit()
    ensures Visiting(IMAGE) == ["x"]
  {
    VisitsBaked(IMAGE, "x");
  }

  lemma ImageAsks()
    ensures Asked(WantedIn(IMAGE.baked, "x"), ENVIRONMENT, "A").Some?
  {
    BakedReads();
    SmallAsks(ENVIRONMENT, "A");
  }

  lemma NoneOwnsIt()
    ensures '\t' !in ENVIRONMENT && OwnedId(ENVIRONMENT, "A") !in IdsOf(Previous(IMAGE), "x")
  {
    KeyIsRepresentable();
  }

  /** A new machine boots the image, writes the key and cannot write its record;
      the next image declares nothing, and its pass succeeds. The key stays. */
  lemma AForgottenKeyStays()
    ensures Fresh(NewMachine())
    ensures var after := Run(NewMachine(), [FailPass(1), Switch(map[]), RunPass]);
      Holds(after.disk.files, Key("x", ENVIRONMENT, "A")).Some?
  {
    NewMachineIsFresh();
    OneVisit();
    ImageAsks();
    NoneOwnsIt();
    AFailedPassForgets(NewMachine(), 1, map[], "x", ENVIRONMENT, "A");
  }
}
