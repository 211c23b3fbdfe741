/** Permissions the machine carries and the declaration does not name:
    what `capturable` proposes, and what becomes of a proposal once
    `declare_overrides` has written it down. */
module CapturedOverrides {
  import opened Text
  import opened Order
  import opened Convergence
  import opened Declaration
  import opened OwnershipRecord
  import opened OverrideStore
  import opened Drifting

  // ----- what is proposed -----

  predicate SpelledWith(key: string, extra: set<char>) {
    (exists c <- key :: IsAlnum(c)) && (forall c <- key :: IsAlnum(c) || c in extra)
  }

  const CONTEXT_KEYS := {"filesystems", "sockets", "devices", "shared", "features", "persistent"}

  /** Whether a key has a place in a declaration at all. */
  predicate Representable(group: string, key: string) {
    if group == CONTEXT then key in CONTEXT_KEYS
    else if group == ENVIRONMENT then SpelledWith(key, VARIABLE_CHARS)
    else (group == SESSION_BUS || group == SYSTEM_BUS) && SpelledWith(key, BUS_CHARS)
  }

  datatype Proposal = Proposal(app: string, scope: Scope, keys: LiveKeys)

  /** The declaration speaks about this application's other store. */
  predicate OtherScope(declared: Overrides, scope: Scope, app: string) {
    app in declared && declared[app].scope != scope
  }

  predicate Unclaimed(declared: Overrides, d: Disk, app: string, group: string, key: string) {
    && OwnedId(group, key) !in IdsOf(Previous(d), app)
    && OwnedId(group, key) !in Ids(KeysIn(declared, app))
  }

  function Offer(declared: Overrides, scope: Scope, d: Disk, app: string): LiveKeys {
    if OtherScope(declared, scope, app) then map[]
    else map k | k in Live(d.files, app) && Representable(k.0, k.1) && Unclaimed(declared, d, app, k.0, k.1)
           :: Live(d.files, app)[k]
  }

  function OfferedBy(declared: Overrides, system: Disk, user: Disk, app: string): seq<Proposal> {
    var s, u := Offer(declared, System, system, app), Offer(declared, User, user, app);
    (if s == map[] then [] else [Proposal(app, System, s)]) + (if u == map[] then [] else [Proposal(app, User, u)])
  }

  function Proposals(declared: Overrides, system: Disk, user: Disk, apps: seq<string>): seq<Proposal> {
    if apps == [] then []
    else
      var per := OfferedBy(declared, system, user, apps[0]);
      (if |per| == 1 then per else []) + Proposals(declared, system, user, apps[1..])
  }

  function Ambiguous(declared: Overrides, system: Disk, user: Disk, apps: seq<string>): seq<string> {
    if apps == [] then []
    else
      (if |OfferedBy(declared, system, user, apps[0])| > 1 then [apps[0]] else [])
      + Ambiguous(declared, system, user, apps[1..])
  }

  lemma OfferStep(declared: Overrides, system: Disk, user: Disk, apps: seq<string>, i: nat, per: seq<Proposal>)
    requires i < |apps| && per == OfferedBy(declared, system, user, apps[i])
    ensures Proposals(declared, system, user, apps[i..]) ==
            (if |per| == 1 then per else []) + Proposals(declared, system, user, apps[i + 1..])
    ensures Ambiguous(declared, system, user, apps[i..]) ==
            (if |per| > 1 then [apps[i]] else []) + Ambiguous(declared, system, user, apps[i + 1..])
  {
    assert apps[i..][0] == apps[i] && apps[i..][1..] == apps[i + 1..];
  }

  method OfferApp(declared: Overrides, system: Disk, user: Disk, app: string) returns (per: seq<Proposal>)
    ensures per == OfferedBy(declared, system, user, app)
  {
    per := [];
    var s := Offer(declared, System, system, app);
    if s != map[] {
      per := per + [Proposal(app, System, s)];
    }
    var u := Offer(declared, User, user, app);
    if u != map[] {
      per := per + [Proposal(app, User, u)];
    }
  }

  method FindCapturable(installed: set<string>, declared: Overrides, system: Disk, user: Disk)
    returns (proposals: seq<Proposal>, ambiguous: seq<string>)
    ensures proposals == Proposals(declared, system, user, Sorted(installed))
    ensures ambiguous == Ambiguous(declared, system, user, Sorted(installed))
  {
    proposals, ambiguous := [], [];
    var apps := Sorted(installed);
    for i := 0 to |apps|
      invariant proposals + Proposals(declared, system, user, apps[i..]) == Proposals(declared, system, user, apps)
      invariant ambiguous + Ambiguous(declared, system, user, apps[i..]) == Ambiguous(declared, system, user, apps)
    {
      var per := OfferApp(declared, system, user, apps[i]);
      OfferStep(declared, system, user, apps, i, per);
      ghost var one, many := if |per| == 1 then per else [], if |per| > 1 then [apps[i]] else [];
      SeqAssociative(proposals, one, Proposals(declared, system, user, apps[i + 1..]));
      SeqAssociative(ambiguous, many, Ambiguous(declared, system, user, apps[i + 1..]));
      proposals, ambiguous := Place(per, apps[i], proposals, ambiguous);
    }
  }

  /** One application's offers: a proposal, or too many to choose. */
  method Place(per: seq<Proposal>, app: string, proposals: seq<Proposal>, ambiguous: seq<string>)
    returns (proposed: seq<Proposal>, unsure: seq<string>)
    ensures proposed == proposals + (if |per| == 1 then per else [])
    ensures unsure == ambiguous + (if |per| > 1 then [app] else [])
  {
    proposed, unsure := proposals, ambiguous;
    if |per| == 1 {
      proposed := proposals + per;
    } else if |per| > 1 {
      unsure := ambiguous + [app];
    }
  }

  /** A live key of a store that has a place in the declaration, which kuma's
      record does not hold, and which the declaration neither asks for nor keeps
      out by speaking about the other store. */
  predicate Proposable(declared: Overrides, scope: Scope, d: Disk, app: string, k: (string, string)) {
    && k in Live(d.files, app) && Representable(k.0, k.1)
    && OwnedId(k.0, k.1) !in IdsOf(ReadState(d.record), app)
    && (app in declared ==>
          declared[app].scope == scope
          && forall e <- DeclaredKeys(declared[app]) :: OwnedId(e.group, e.key) != OwnedId(k.0, k.1))
  }

  lemma OfferIs(declared: Overrides, scope: Scope, d: Disk, app: string)
    ensures forall k :: k in Offer(declared, scope, d, app) <==> Proposable(declared, scope, d, app, k)
    ensures forall k <- Offer(declared, scope, d, app) :: Offer(declared, scope, d, app)[k] == Live(d.files, app)[k]
  {
    forall k: (string, string)
      ensures OwnedId(k.0, k.1) in Ids(KeysIn(declared, app)) <==>
        exists e <- KeysIn(declared, app) :: OwnedId(k.0, k.1) == OwnedId(e.group, e.key)
    {
      IdsListed(KeysIn(declared, app), OwnedId(k.0, k.1));
    }
  }

  /** A proposal's keys are exactly the proposable ones of its store, with their
      values, its application was asked about, and it is not among the
      ambiguous ones. */
  lemma {:induction false} ProposalsAreUnclaimed(declared: Overrides, system: Disk, user: Disk,
                                                 apps: seq<string>, p: Proposal)
    requires NoDuplicates(apps) && p in Proposals(declared, system, user, apps)
    ensures p.app in apps && p.app !in Ambiguous(declared, system, user, apps)
    ensures p.keys != map[]
    ensures var d := if p.scope == System then system else user;
      && (forall k :: k in p.keys <==> Proposable(declared, p.scope, d, p.app, k))
      && (forall k <- p.keys :: p.keys[k] == Live(d.files, p.app)[k])
  {
    var app, rest := apps[0], apps[1..];
    OfferIs(declared, p.scope, if p.scope == System then system else user, p.app);
    if p in Proposals(declared, system, user, rest) {
      ProposalsAreUnclaimed(declared, system, user, rest, p);
      assert p.app != app;
    } else {
      AmbiguousAreListed(declared, system, user, rest);
    }
  }

  lemma {:induction false} AmbiguousAreListed(declared: Overrides, system: Disk, user: Disk, apps: seq<string>)
    ensures forall a :: a in Ambiguous(declared, system, user, apps) <==>
      a in apps && Offer(declared, System, system, a) != map[] && Offer(declared, User, user, a) != map[]
  {
    if apps != [] {
      AmbiguousAreListed(declared, system, user, apps[1..]);
    }
  }

  /** An application is ambiguous when both stores have something to propose. */
  lemma AmbiguousMeans(declared: Overrides, system: Disk, user: Disk, apps: seq<string>, app: string)
    ensures app in Ambiguous(declared, system, user, apps) <==>
      && app in apps
      && (exists k :: Proposable(declared, System, system, app, k))
      && (exists k :: Proposable(declared, User, user, app, k))
  {
    AmbiguousAreListed(declared, system, user, apps);
    OfferIs(declared, System, system, app);
    OfferIs(declared, User, user, app);
    HasAKey(Offer(declared, System, system, app));
    HasAKey(Offer(declared, User, user, app));
  }

  lemma HasAKey(keys: LiveKeys)
    ensures keys != map[] <==> exists k :: k in keys
  {
    assert keys != map[] <==> keys.Keys != {};
  }

  /** Nothing is passed over: a proposable key is in its application's proposal,
      or the application is ambiguous. */
  lemma EveryKeyIsOffered(declared: Overrides, system: Disk, user: Disk, apps: seq<string>,
                          scope: Scope, app: string, k: (string, string))
    requires app in apps && Proposable(declared, scope, if scope == System then system else user, app, k)
    ensures app in Ambiguous(declared, system, user, apps) ||
            exists p <- Proposals(declared, system, user, apps) :: p.app == app && p.scope == scope && k in p.keys
  {
    OfferIs(declared, scope, if scope == System then system else user, app);
    OfferIsProposed(declared, system, user, apps, scope, app, k);
  }

  lemma {:induction false} OfferIsProposed(declared: Overrides, system: Disk, user: Disk, apps: seq<string>,
                                           scope: Scope, app: string, k: (string, string))
    requires app in apps && k in Offer(declared, scope, if scope == System then system else user, app)
    ensures app in Ambiguous(declared, system, user, apps) ||
            exists p <- Proposals(declared, system, user, apps) :: p.app == app && p.scope == scope && k in p.keys
  {
    if apps[0] == app {
      var per := OfferedBy(declared, system, user, app);
      if |per| == 1 {
        assert per[0] in Proposals(declared, system, user, apps);
      }
    } else {
      OfferIsProposed(declared, system, user, apps[1..], scope, app, k);
      if p :| p in Proposals(declared, system, user, apps[1..]) && p.app == app && p.scope == scope && k in p.keys {
        assert p in Proposals(declared, system, user, apps);
      }
    }
  }

  /** A key is proposed when it has a letter or digit and only the characters
      the schema allows. Validation also refuses a leading dash, so a bus name
      that starts with one is proposed and cannot be declared; no other
      proposed name is refused. */
  lemma ProposedNamesAreSpellable(group: string, key: string)
    requires Representable(group, key) && group != CONTEXT
    ensures var extra := if group == ENVIRONMENT then VARIABLE_CHARS else BUS_CHARS;
      ValidName(key, extra) <==> key[..1] != "-"
    ensures group == ENVIRONMENT ==> key[..1] != "-"
  {
    var c :| c in key && IsAlnum(c);
    assert key[0] in key;
  }

  lemma LeadingDashIsProposed()
    ensures Representable(SESSION_BUS, "-a") && !ValidName("-a", BUS_CHARS)
  {
    GroupNames();
    assert SESSION_BUS[0] == 'S' && CONTEXT[0] == 'C' && ENVIRONMENT[0] == 'E';
    assert "-a"[1] in "-a" && IsAlnum("-a"[1]);
  }

  // ----- what a proposal becomes -----

  function NonEmpty(items: seq<string>): seq<string> {
    if items == [] then []
    else (if items[0] == "" then [] else [items[0]]) + NonEmpty(items[1..])
  }

  /** A `[Context]` value as the array a declaration holds. */
  function Items(value: string): seq<string> { NonEmpty(Split(value, ';')) }

  function PolicyOf(word: string): Option<BusPolicy> {
    if word == "none" then Some(NoAccess)
    else if word == "see" then Some(See)
    else if word == "talk" then Some(Talk)
    else if word == "own" then Some(Own)
    else None
  }

  function SetList(app: AppOverride, key: string, items: seq<string>): AppOverride {
    if key == "filesystems" then app.(filesystems := items)
    else if key == "sockets" then app.(sockets := items)
    else if key == "devices" then app.(devices := items)
    else if key == "shared" then app.(shared := items)
    else if key == "features" then app.(features := items)
    else app.(persistent := items)
  }

  /** One captured key written into an override table. A bus policy that is
      not one of flatpak's four words is refused when the file is stored. */
  function Declare(app: AppOverride, e: Entry): Option<AppOverride> {
    if e.group == CONTEXT then Some(SetList(app, e.key, Items(e.value)))
    else if e.group == ENVIRONMENT then Some(app.(environment := app.environment[e.key := e.value]))
    else
      match PolicyOf(e.value)
      case None => None
      case Some(policy) =>
        if e.group == SESSION_BUS then Some(app.(sessionBus := app.sessionBus[e.key := policy]))
        else Some(app.(systemBus := app.systemBus[e.key := policy]))
  }

  predicate NoEmptyItem(value: string) {
    forall i | 0 < i < |value| :: value[i] == ';' ==> value[i - 1] != ';'
  }

  /** A list as flatpak writes it: something, closed by a semicolon, with no
      empty item. */
  predicate ProperList(value: string) {
    value != "" && value[0] != ';' && value[|value| - 1] == ';' && NoEmptyItem(value)
  }

  lemma NoEmptyItemStep(item: string, rest: string)
    requires item != "" && ';' !in item
    ensures NoEmptyItem(item + ";" + rest) <==> NoEmptyItem(rest) && (rest != "" ==> rest[0] != ';')
  {
    var value, n := item + ";" + rest, |item| + 1;
    if NoEmptyItem(value) {
      forall i | 0 < i < |rest| ensures rest[i] == ';' ==> rest[i - 1] != ';' {
        assert value[n + i] == rest[i] && value[n + i - 1] == rest[i - 1];
      }
      if rest != "" {
        assert value[n] == rest[0] && value[n - 1] == ';';
      }
    }
    if NoEmptyItem(rest) && (rest != "" ==> rest[0] != ';') {
      forall i | 0 < i < |value| ensures value[i] == ';' ==> value[i - 1] != ';' {
        if i < n {
          assert value[i - 1] in item;
        } else if i > n {
          assert value[i] == rest[i - n] && value[i - 1] == rest[i - n - 1];
        } else {
          assert value[i] == rest[0];
        }
      }
    }
  }

  lemma ProperListStep(item: string, rest: string)
    requires ';' !in item
    ensures ProperList(item + ";" + rest) <==> item != "" && (rest == "" || ProperList(rest))
  {
    if item != "" {
      assert (item + ";" + rest)[0] in item;
      NoEmptyItemStep(item, rest);
    }
  }

  lemma ItemsStep(value: string, at: nat)
    requires at < |value| && at == IndexOf(value, ';')
    ensures Items(value) == (if at == 0 then [] else [value[..at]]) + Items(value[at + 1..])
  {
    assert ([value[..at]] + Split(value[at + 1..], ';'))[1..] == Split(value[at + 1..], ';');
  }

  lemma ItemsLast(value: string)
    requires ';' !in value
    ensures Items(value) == if value == "" then [] else [value]
  {
    assert NonEmpty([value][1..]) == [];
  }

  lemma {:induction false} ItemsAreItems(value: string)
    ensures forall item <- Items(value) :: item != "" && ';' !in item
    decreases |value|
  {
    var at := IndexOf(value, ';');
    if at == |value| {
      ItemsLast(value);
    } else {
      ItemsStep(value, at);
      ItemsAreItems(value[at + 1..]);
    }
  }

  lemma ListStart(items: seq<string>)
    requires forall item <- items :: item != "" && ';' !in item
    ensures ListValue(items) == "" <==> items == []
    ensures items != [] ==> ListValue(items)[0] != ';'
  {
    if items != [] {
      assert items[0] in items;
    }
  }

  /** The array keeps exactly the proper lists. */
  lemma {:induction false} ItemsRoundTrip(value: string)
    ensures Items(value) != [] && ListValue(Items(value)) == value <==> ProperList(value)
    decreases |value|
  {
    var at := IndexOf(value, ';');
    if at == |value| {
      ItemsLast(value);
      assert [value][1..] == [];
      if value != "" {
        assert value[|value| - 1] in value;
        assert ListValue([value]) == value + ";" + "";
      }
    } else {
      var item, rest := value[..at], value[at + 1..];
      assert value == item + ";" + rest;
      ItemsStep(value, at);
      ItemsAreItems(value);
      ItemsAreItems(rest);
      ListStart(Items(value));
      ListStart(Items(rest));
      ProperListStep(item, rest);
      ItemsRoundTrip(rest);
      if at == 0 {
        assert value[0] == ';';
      } else {
        assert ([item] + Items(rest))[1..] == Items(rest);
        assert ListValue(Items(value)) == item + ";" + ListValue(Items(rest));
        SameTail(item + ";", ListValue(Items(rest)), rest);
        if rest == "" {
          ItemsLast(rest);
        }
      }
    }
  }

  lemma SameTail(head: string, a: string, b: string)
    ensures head + a == head + b <==> a == b
  {
    if head + a == head + b {
      assert a == (head + a)[|head|..] && b == (head + b)[|head|..];
    }
  }

  // ----- the declared value of a key, straight from the table -----

  function ListOf(lists: seq<(string, seq<string>)>, key: string): seq<string> {
    if lists == [] then []
    else if lists[0].0 == key then lists[0].1
    else ListOf(lists[1..], key)
  }

  function Lookup(values: map<string, string>, key: string): Option<string> {
    if key in values then Some(values[key]) else None
  }

  function ValueOf(app: AppOverride, group: string, key: string): Option<string> {
    if group == CONTEXT then
      var items := ListOf(ContextLists(app), key);
      if items == [] then None else Some(ListValue(items))
    else if group == ENVIRONMENT then Lookup(app.environment, key)
    else if group == SESSION_BUS then Lookup(Words(app.sessionBus), key)
    else if group == SYSTEM_BUS then Lookup(Words(app.systemBus), key)
    else None
  }

  lemma {:induction false} AskedAppend(a: seq<Entry>, b: seq<Entry>, group: string, key: string)
    ensures Asked(a + b, group, key)
            == if Asked(b, group, key).Some? then Asked(b, group, key) else Asked(a, group, key)
  {
    if a == [] {
      assert a + b == b;
    } else {
      assert (a + b)[1..] == a[1..] + b;
      AskedAppend(a[1..], b, group, key);
    }
  }

  lemma {:induction false} AskedOfLists(lists: seq<(string, seq<string>)>, group: string, key: string)
    requires forall i, j | 0 <= i < j < |lists| :: lists[i].0 != lists[j].0
    ensures Asked(ListEntries(lists), group, key) ==
            if group == CONTEXT && ListOf(lists, key) != [] then Some(ListValue(ListOf(lists, key))) else None
  {
    if lists != [] {
      AskedOfLists(lists[1..], group, key);
      if lists[0].0 == key {
        NotListed(lists[1..], key);
      }
    }
  }

  lemma {:induction false} NotListed(lists: seq<(string, seq<string>)>, key: string)
    requires forall i | 0 <= i < |lists| :: lists[i].0 != key
    ensures ListOf(lists, key) == []
  {
    if lists != [] {
      NotListed(lists[1..], key);
    }
  }

  lemma {:induction false} AskedOfTable(group: string, names: seq<string>, values: map<string, string>,
                                        g: string, key: string)
    requires forall n <- names :: n in values
    ensures Asked(MapEntries(group, names, values), g, key) ==
            if g == group && key in names then Some(values[key]) else None
  {
    if names != [] {
      AskedOfTable(group, names[1..], values, g, key);
    }
  }

  /** The keys a table asks for are its fields, read by group and key. */
  lemma AskedIsValue(app: AppOverride, group: string, key: string)
    ensures Asked(DeclaredKeys(app), group, key) == ValueOf(app, group, key)
  {
    GroupNames();
    ContextNames();
    var lists, env := ListEntries(ContextLists(app)), TableEntries(ENVIRONMENT, app.environment);
    var session := TableEntries(SESSION_BUS, Words(app.sessionBus));
    var system := TableEntries(SYSTEM_BUS, Words(app.systemBus));
    AskedOfLists(ContextLists(app), group, key);
    AskedOfTable(ENVIRONMENT, Sorted(app.environment.Keys), app.environment, group, key);
    AskedOfTable(SESSION_BUS, Sorted(Words(app.sessionBus).Keys), Words(app.sessionBus), group, key);
    AskedOfTable(SYSTEM_BUS, Sorted(Words(app.systemBus).Keys), Words(app.systemBus), group, key);
    AskedAppend(lists, env, group, key);
    AskedAppend(lists + env, session, group, key);
    AskedAppend(lists + env + session, system, group, key);
  }

  // ----- the theorems -----

  /** Some valid table asks for the key. */
  ghost predicate Declarable(group: string, key: string) {
    exists app: AppOverride, value: string :: Valid(app) && Entry(group, key, value) in DeclaredKeys(app)
  }

  /** Whatever a valid table asks for has a place in a declaration. */
  lemma DeclaredIsRepresentable(app: AppOverride, e: Entry)
    requires Valid(app) && e in DeclaredKeys(app)
    ensures Representable(e.group, e.key) && e.key[..1] != "-"
  {
    DeclaredKeysLegal(app);
    var i :| 0 <= i < |DeclaredKeys(app)| && DeclaredKeys(app)[i] == e;
    DistinctAsked(DeclaredKeys(app), i);
    AskedIsValue(app, e.group, e.key);
    ValuedIsRepresentable(app, e.group, e.key);
  }

  lemma ValuedIsRepresentable(app: AppOverride, group: string, key: string)
    requires Valid(app) && ValueOf(app, group, key).Some?
    ensures Representable(group, key) && key[..1] != "-"
  {
    GroupNames();
    if group == CONTEXT {
      ListsByName(app, key);
      ListNamesStart(key);
    }
  }

  lemma ListNamesStart(key: string)
    requires key in CONTEXT_KEYS
    ensures key != "" && key[0] != '-'
  {
    assert forall name <- CONTEXT_KEYS :: name != "" && name[0] != '-';
  }

  /** A table that asks for one key. */
  function Asking(group: string, key: string): AppOverride {
    if group == CONTEXT then SetList(UNDECLARED, key, ["a"])
    else if group == ENVIRONMENT then UNDECLARED.(environment := map[key := ""])
    else if group == SESSION_BUS then UNDECLARED.(sessionBus := map[key := Talk])
    else UNDECLARED.(systemBus := map[key := Talk])
  }

  lemma AskingIsValid(group: string, key: string)
    requires Representable(group, key) && key[..1] != "-"
    ensures Valid(Asking(group, key)) && ValueOf(Asking(group, key), group, key).Some?
  {
    if group == CONTEXT {
      AskingListIsValid(key);
    } else {
      AskingTableIsValid(group, key);
    }
  }

  lemma AskingTableIsValid(group: string, key: string)
    requires Representable(group, key) && key[..1] != "-" && group != CONTEXT
    ensures Valid(Asking(group, key)) && ValueOf(Asking(group, key), group, key).Some?
  {
    GroupNames();
    assert key in map[key := ""] && key in map[key := Talk];
  }

  lemma AskingListIsValid(key: string)
    requires key in CONTEXT_KEYS
    ensures Valid(Asking(CONTEXT, key)) && ValueOf(Asking(CONTEXT, key), CONTEXT, key).Some?
  {
    assert "a"[0] in "a" && ValidName("a", LIST_CHARS);
    AskingLists(key);
    ListsByName(Asking(CONTEXT, key), key);
    SetListTables(UNDECLARED, key, ["a"]);
  }

  lemma AskingLists(key: string)
    requires key in CONTEXT_KEYS
    ensures ListNamed(SetList(UNDECLARED, key, ["a"]), key) == ["a"]
    ensures exists l <- ContextLists(SetList(UNDECLARED, key, ["a"])) :: l.1 != []
    ensures forall l <- ContextLists(SetList(UNDECLARED, key, ["a"])) :: l.1 == [] || l.1 == ["a"]
  {
    var lists := ContextLists(SetList(UNDECLARED, key, ["a"]));
    var i := ContextIndex(SetList(UNDECLARED, key, ["a"]), key);
    assert lists[i] in lists;
  }

  /** A key has a place in a declaration exactly when some valid table asks for
      it, but for a bus name that starts with a dash. */
  lemma RepresentableIsDeclarable(group: string, key: string)
    ensures Declarable(group, key) <==> Representable(group, key) && key[..1] != "-"
  {
    if Representable(group, key) && key[..1] != "-" {
      var app := Asking(group, key);
      AskingIsValid(group, key);
      AskedIsValue(app, group, key);
      AskedIsListed(DeclaredKeys(app), group, key);
    }
    if app: AppOverride, value: string :| Valid(app) && Entry(group, key, value) in DeclaredKeys(app) {
      DeclaredIsRepresentable(app, Entry(group, key, value));
    }
  }

  /** The values a declaration gives back as they were captured. */
  predicate Keepable(e: Entry) {
    if e.group == CONTEXT then ProperList(e.value)
    else if e.group == ENVIRONMENT then true
    else e.value in {"none", "see", "talk", "own"}
  }

  lemma WordRoundTrip(word: string)
    ensures PolicyOf(word).Some? ==> Word(PolicyOf(word).value) == word
    ensures PolicyOf(word).Some? <==> word in {"none", "see", "talk", "own"}
  {}

  /** Writing one captured key down makes the declaration ask for exactly that
      key and value, for the keepable values and no others; what it asked for
      under every other key is unchanged. */
  lemma DeclaredComesBack(app: AppOverride, e: Entry, group: string, key: string)
    requires Representable(e.group, e.key)
    ensures Keepable(e) <==>
      Declare(app, e).Some? && ValueOf(Declare(app, e).value, e.group, e.key) == Some(e.value)
    ensures Declare(app, e).Some? && !(group == e.group && key == e.key) ==>
      ValueOf(Declare(app, e).value, group, key) == ValueOf(app, group, key)
  {
    GroupNames();
    if e.group == CONTEXT {
      ListComesBack(app, e, group, key);
    } else {
      WordRoundTrip(e.value);
    }
  }

  lemma ListComesBack(app: AppOverride, e: Entry, group: string, key: string)
    requires e.group == CONTEXT && e.key in CONTEXT_KEYS
    ensures var next := SetList(app, e.key, Items(e.value));
      && (ProperList(e.value) <==> ValueOf(next, CONTEXT, e.key) == Some(e.value))
      && (!(group == CONTEXT && key == e.key) ==> ValueOf(next, group, key) == ValueOf(app, group, key))
  {
    ItemsRoundTrip(e.value);
    SetListValue(app, e.key, Items(e.value), group, key);
    SetListValue(app, e.key, Items(e.value), CONTEXT, e.key);
  }

  lemma SetListTables(app: AppOverride, name: string, items: seq<string>)
    ensures var after := SetList(app, name, items);
      after.environment == app.environment && after.sessionBus == app.sessionBus && after.systemBus == app.systemBus
  {}

  lemma SetListValue(app: AppOverride, name: string, items: seq<string>, group: string, key: string)
    requires name in CONTEXT_KEYS
    ensures ValueOf(SetList(app, name, items), group, key) ==
            if group == CONTEXT && key == name then (if items == [] then None else Some(ListValue(items)))
            else ValueOf(app, group, key)
  {
    SetListReads(app, name, items, key);
    SetListTables(app, name, items);
  }

  lemma {:induction false} ListOfAt(lists: seq<(string, seq<string>)>, i: nat)
    requires i < |lists| && forall j, k | 0 <= j < k < |lists| :: lists[j].0 != lists[k].0
    ensures ListOf(lists, lists[i].0) == lists[i].1
  {
    if i > 0 {
      ListOfAt(lists[1..], i - 1);
    }
  }

  function ListNamed(app: AppOverride, key: string): seq<string> {
    if key == "filesystems" then app.filesystems
    else if key == "sockets" then app.sockets
    else if key == "devices" then app.devices
    else if key == "shared" then app.shared
    else if key == "features" then app.features
    else app.persistent
  }

  lemma ContextIndex(app: AppOverride, key: string) returns (i: nat)
    requires key in CONTEXT_KEYS
    ensures i < 6 && ContextLists(app)[i] == (key, ListNamed(app, key))
  {
    i := if key == "filesystems" then 0 else if key == "sockets" then 1 else if key == "devices" then 2
         else if key == "shared" then 3 else if key == "features" then 4 else 5;
  }

  lemma ListsByName(app: AppOverride, key: string)
    ensures ListOf(ContextLists(app), key) == if key in CONTEXT_KEYS then ListNamed(app, key) else []
  {
    if key in CONTEXT_KEYS {
      ContextNames();
      var i := ContextIndex(app, key);
      ListOfAt(ContextLists(app), i);
    } else {
      NotListed(ContextLists(app), key);
    }
  }

  lemma ListSetNamed(app: AppOverride, key: string, items: seq<string>, other: string)
    requires key in CONTEXT_KEYS && other in CONTEXT_KEYS
    ensures ListNamed(SetList(app, key, items), other) == if other == key then items else ListNamed(app, other)
  {}

  lemma SetListReads(app: AppOverride, key: string, items: seq<string>, other: string)
    requires key in CONTEXT_KEYS
    ensures ListOf(ContextLists(SetList(app, key, items)), other) ==
            if other == key then items else ListOf(ContextLists(app), other)
  {
    ListsByName(app, other);
    ListsByName(SetList(app, key, items), other);
    if other in CONTEXT_KEYS {
      ListSetNamed(app, key, items, other);
    }
  }

  /** What the declaration asks for once a captured value is written down. */
  function Spelled(e: Entry): Option<string> {
    if e.group != CONTEXT then Some(e.value)
    else if Items(e.value) == [] then None
    else Some(ListValue(Items(e.value)))
  }

  lemma DeclaredIsSpelled(app: AppOverride, e: Entry)
    requires Representable(e.group, e.key) && Declare(app, e).Some?
    ensures ValueOf(Declare(app, e).value, e.group, e.key) == Spelled(e)
  {
    GroupNames();
    if e.group == CONTEXT {
      SetListValue(app, e.key, Items(e.value), CONTEXT, e.key);
    } else {
      WordRoundTrip(e.value);
    }
  }

  // ----- a whole proposal -----

  /** Keys written one after the other. */
  function DeclareEach(app: AppOverride, entries: seq<Entry>): Option<AppOverride>
    decreases |entries|
  {
    if entries == [] then Some(app)
    else
      match Declare(app, entries[0])
      case None => None
      case Some(next) => DeclareEach(next, entries[1..])
  }

  const UNDECLARED := AppOverride(System, [], [], [], [], [], [], map[], map[], map[])

  /** The table to write into; the scope is written down unless it is the
      system's, which is what a new table has. */
  function TableFor(declared: Overrides, app: string, scope: Scope): AppOverride {
    var base := if app in declared then declared[app] else UNDECLARED;
    if scope == System then base else base.(scope := scope)
  }

  function IdsIn(keys: LiveKeys): set<string> { set k | k in keys :: OwnedId(k.0, k.1) }

  function EntriesFor(ids: seq<string>, keys: LiveKeys): seq<Entry> {
    if ids == [] then []
    else if SplitId(ids[0]).Some? && SplitId(ids[0]).value in keys then
      var k := SplitId(ids[0]).value;
      [Entry(k.0, k.1, keys[k])] + EntriesFor(ids[1..], keys)
    else EntriesFor(ids[1..], keys)
  }

  /** A proposal's keys in order. */
  function EntriesOf(keys: LiveKeys): seq<Entry> { EntriesFor(Sorted(IdsIn(keys)), keys) }

  function DeclareAll(declared: Overrides, p: Proposal): Option<Overrides> {
    match DeclareEach(TableFor(declared, p.app, p.scope), EntriesOf(p.keys))
    case None => None
    case Some(table) => Some(declared[p.app := table])
  }

  predicate AllRepresentable(keys: LiveKeys) { forall k <- keys :: Representable(k.0, k.1) }

  lemma RepresentableSplits(group: string, key: string)
    requires Representable(group, key)
    ensures '\t' !in group && SplitId(OwnedId(group, key)) == Some((group, key))
  {
    GroupNames();
    SplitOwnedId(group, key);
  }

  lemma {:induction false} EntriesForAre(ids: seq<string>, keys: LiveKeys)
    requires NoDuplicates(ids)
    ensures forall e <- EntriesFor(ids, keys) ::
              OwnedId(e.group, e.key) in ids && (e.group, e.key) in keys && keys[(e.group, e.key)] == e.value
    ensures forall k <- keys | OwnedId(k.0, k.1) in ids && SplitId(OwnedId(k.0, k.1)) == Some(k) ::
              Entry(k.0, k.1, keys[k]) in EntriesFor(ids, keys)
    ensures Distinct(EntriesFor(ids, keys))
  {
    if ids != [] {
      EntriesForAre(ids[1..], keys);
      assert ids[0] !in ids[1..];
      if SplitId(ids[0]).Some? {
        SplitIdIsId(ids[0]);
      }
    }
  }

  lemma EntriesOfAre(keys: LiveKeys)
    requires AllRepresentable(keys)
    ensures forall e <- EntriesOf(keys) :: (e.group, e.key) in keys && keys[(e.group, e.key)] == e.value
    ensures forall e <- EntriesOf(keys) :: Representable(e.group, e.key)
    ensures forall k <- keys :: Entry(k.0, k.1, keys[k]) in EntriesOf(keys)
    ensures Distinct(EntriesOf(keys))
  {
    EntriesForAre(Sorted(IdsIn(keys)), keys);
    forall k | k in keys ensures Entry(k.0, k.1, keys[k]) in EntriesOf(keys) {
      RepresentableSplits(k.0, k.1);
      assert OwnedId(k.0, k.1) in IdsIn(keys);
    }
  }

  lemma EntriesAsked(keys: LiveKeys, group: string, key: string)
    requires AllRepresentable(keys)
    ensures Asked(EntriesOf(keys), group, key)
            == if (group, key) in keys then Some(keys[(group, key)]) else None
  {
    EntriesOfAre(keys);
    var entries := EntriesOf(keys);
    if (group, key) in keys {
      var i :| 0 <= i < |entries| && entries[i] == Entry(group, key, keys[(group, key)]);
      DistinctAsked(entries, i);
    } else {
      NotAsked(entries, group, key);
    }
  }

  lemma DeclareKeepsScope(app: AppOverride, e: Entry)
    ensures Declare(app, e).Some? ==> Declare(app, e).value.scope == app.scope
  {}

  lemma DeclareValue(app: AppOverride, e: Entry, group: string, key: string)
    requires Representable(e.group, e.key) && Declare(app, e).Some?
    ensures ValueOf(Declare(app, e).value, group, key)
            == if e.group == group && e.key == key then Spelled(e) else ValueOf(app, group, key)
  {
    if e.group == group && e.key == key {
      DeclaredIsSpelled(app, e);
    } else {
      DeclaredComesBack(app, e, group, key);
    }
  }

  lemma DeclareStep(app: AppOverride, e: Entry, next: AppOverride, group: string, key: string)
    requires Representable(e.group, e.key) && Declare(app, e) == Some(next)
    ensures next.scope == app.scope
    ensures Asked(DeclaredKeys(next), group, key)
            == if e.group == group && e.key == key then Spelled(e) else Asked(DeclaredKeys(app), group, key)
  {
    DeclareKeepsScope(app, e);
    DeclareValue(app, e, group, key);
    AskedIsValue(app, group, key);
    AskedIsValue(next, group, key);
  }

  /** Captured keys come back: each as its value is spelled, and every key that
      was not captured as it was. */
  lemma {:induction false} CapturedComesBack(app: AppOverride, entries: seq<Entry>, group: string, key: string)
    requires Distinct(entries) && (forall e <- entries :: Representable(e.group, e.key))
    requires DeclareEach(app, entries).Some?
    ensures var r := DeclareEach(app, entries).value; var captured := Asked(entries, group, key);
      && r.scope == app.scope
      && Asked(DeclaredKeys(r), group, key)
         == if captured.Some? then Spelled(Entry(group, key, captured.value)) else Asked(DeclaredKeys(app), group, key)
    decreases |entries|
  {
    if entries != [] {
      var e, rest := entries[0], entries[1..];
      assert e in entries && Distinct(rest);
      DeclareStep(app, e, Declare(app, e).value, group, key);
      CapturedComesBack(Declare(app, e).value, rest, group, key);
      if e.group == group && e.key == key {
        NotAsked(rest, group, key);
      }
    }
  }

  /** For a proposal: what the written table asks for, and its scope. */
  lemma ProposalComesBack(declared: Overrides, p: Proposal, group: string, key: string)
    requires AllRepresentable(p.keys) && DeclareAll(declared, p).Some?
    requires p.scope == System ==> !OtherScope(declared, System, p.app)
    ensures var table := DeclareAll(declared, p).value[p.app];
      && table.scope == p.scope
      && Asked(DeclaredKeys(table), group, key)
         == if (group, key) in p.keys then Spelled(Entry(group, key, p.keys[(group, key)]))
            else Asked(KeysIn(declared, p.app), group, key)
  {
    var table := TableFor(declared, p.app, p.scope);
    EntriesOfAre(p.keys);
    EntriesAsked(p.keys, group, key);
    CapturedComesBack(table, EntriesOf(p.keys), group, key);
    NothingUndeclared(group, key);
    AskedIsValue(table, group, key);
    if p.app in declared {
      AskedIsValue(declared[p.app], group, key);
    } else {
      AskedIsValue(UNDECLARED, group, key);
    }
  }

  lemma NothingUndeclared(group: string, key: string)
    ensures ValueOf(UNDECLARED, group, key).None?
  {
    ListsByName(UNDECLARED, key);
  }

  // ----- drift after a capture -----

  function DiskOf(scope: Scope, system: Disk, user: Disk): Disk { if scope == System then system else user }

  function Other(scope: Scope): Scope { if scope == System then User else System }

  /** Whether `kuma diff` lists a key, in either direction and either store. */
  predicate Listed(declared: Overrides, system: Disk, user: Disk, app: string, k: (string, string)) {
    exists change | change in {Add, Remove} ::
      Drift(app, k.0, k.1, change) in DriftIn(declared, System, system) + DriftIn(declared, User, user)
  }

  predicate IsOffer(declared: Overrides, system: Disk, user: Disk, p: Proposal) {
    p.keys == Offer(declared, p.scope, DiskOf(p.scope, system, user), p.app) && p.keys != map[]
  }

  /** Kuma set the key in that store before, and it is still there. */
  predicate StillOwned(d: Disk, app: string, k: (string, string)) {
    OwnedId(k.0, k.1) in IdsOf(Previous(d), app) && k in Live(d.files, app)
  }

  lemma OfferMeans(declared: Overrides, system: Disk, user: Disk, p: Proposal, k: (string, string))
    requires IsOffer(declared, system, user, p) && k in p.keys
    ensures var d := DiskOf(p.scope, system, user);
      && AllRepresentable(p.keys) && !OtherScope(declared, p.scope, p.app)
      && k in Live(d.files, p.app) && Live(d.files, p.app)[k] == p.keys[k]
      && OwnedId(k.0, k.1) !in IdsOf(Previous(d), p.app)
  {}

  lemma AddShown(declared: Overrides, scope: Scope, d: Disk, app: string, k: (string, string), value: string)
    requires InScope(declared, scope, app) && k in Live(d.files, app) && Live(d.files, app)[k] == value
    ensures ShowsAdd(declared, scope, d, app, k.0, k.1) <==>
              Asked(DeclaredKeys(declared[app]), k.0, k.1) !in {None, Some(value)}
  {}

  lemma ProposalInScope(declared: Overrides, p: Proposal, k: (string, string))
    requires AllRepresentable(p.keys) && DeclareAll(declared, p).Some? && k in p.keys
    requires !OtherScope(declared, p.scope, p.app)
    ensures var after := DeclareAll(declared, p).value;
      && InScope(after, p.scope, p.app)
      && Asked(DeclaredKeys(after[p.app]), k.0, k.1) == Spelled(Entry(k.0, k.1, p.keys[k]))
  {
    ProposalComesBack(declared, p, k.0, k.1);
  }

  lemma OwnStoreDrift(declared: Overrides, system: Disk, user: Disk, p: Proposal, k: (string, string))
    requires IsOffer(declared, system, user, p) && k in p.keys && DeclareAll(declared, p).Some?
    requires Valid(DeclareAll(declared, p).value[p.app])
    ensures var after := DeclareAll(declared, p).value; var d := DiskOf(p.scope, system, user);
      && (ShowsAdd(after, p.scope, d, p.app, k.0, k.1) <==>
            Spelled(Entry(k.0, k.1, p.keys[k])) !in {None, Some(p.keys[k])})
      && !ShowsRemove(after, p.scope, d, p.app, k.0, k.1)
  {
    OfferMeans(declared, system, user, p, k);
    ProposalInScope(declared, p, k);
    AddShown(DeclareAll(declared, p).value, p.scope, DiskOf(p.scope, system, user), p.app, k, p.keys[k]);
  }

  lemma OtherStoreDrift(declared: Overrides, system: Disk, user: Disk, p: Proposal, k: (string, string))
    requires IsOffer(declared, system, user, p) && k in p.keys && DeclareAll(declared, p).Some?
    ensures var after := DeclareAll(declared, p).value; var d := DiskOf(Other(p.scope), system, user);
      && !ShowsAdd(after, Other(p.scope), d, p.app, k.0, k.1)
      && (ShowsRemove(after, Other(p.scope), d, p.app, k.0, k.1) <==> StillOwned(d, p.app, k))
  {
    ProposalComesBack(declared, p, k.0, k.1);
  }

  lemma ListedMeans(declared: Overrides, system: Disk, user: Disk, app: string, k: (string, string))
    requires '\t' !in k.0 && (app in declared ==> Distinct(DeclaredKeys(declared[app])))
    ensures Listed(declared, system, user, app, k) <==>
              || ShowsAdd(declared, System, system, app, k.0, k.1)
              || ShowsRemove(declared, System, system, app, k.0, k.1)
              || ShowsAdd(declared, User, user, app, k.0, k.1)
              || ShowsRemove(declared, User, user, app, k.0, k.1)
  {
    DriftMeans(declared, System, system, app, k.0, k.1);
    DriftMeans(declared, User, user, app, k.0, k.1);
    var add, remove := Drift(app, k.0, k.1, Add), Drift(app, k.0, k.1, Remove);
    var a, b := DriftIn(declared, System, system), DriftIn(declared, User, user);
    assert Listed(declared, system, user, app, k) <==> add in a + b || remove in a + b;
  }

  /** Once a proposal is declared, `kuma diff` has nothing to say about a key of
      it, exactly when its value is spelled as it stands (or asks for nothing) and
      the other store does not still hold it for kuma. */
  lemma CapturedShowsNoDrift(declared: Overrides, system: Disk, user: Disk, p: Proposal, k: (string, string))
    requires IsOffer(declared, system, user, p) && k in p.keys && DeclareAll(declared, p).Some?
    requires Valid(DeclareAll(declared, p).value[p.app])
    ensures !Listed(DeclareAll(declared, p).value, system, user, p.app, k) <==>
              && Spelled(Entry(k.0, k.1, p.keys[k])) in {None, Some(p.keys[k])}
              && !StillOwned(DiskOf(Other(p.scope), system, user), p.app, k)
  {
    var after := DeclareAll(declared, p).value;
    OwnStoreDrift(declared, system, user, p, k);
    OtherStoreDrift(declared, system, user, p, k);
    DeclaredKeysLegal(after[p.app]);
    RepresentableSplits(k.0, k.1);
    ListedMeans(after, system, user, p.app, k);
  }
}
