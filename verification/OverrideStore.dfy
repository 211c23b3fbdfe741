/** One scope's converge pass over a whole store (`converge_store`), and what
    holds over every run of image switches, passes and third-party edits. */
module OverrideStore {
  import opened Text
  import opened Order
  import opened KeyFiles
  import opened Convergence
  import opened Declaration
  import opened OwnershipRecord

  /** What one scope has on disk: the files the image baked, the store, and
      the record of what kuma set. */
  datatype Disk = Disk(baked: map<string, string>, files: map<string, string>, record: Option<string>)

  function Previous(d: Disk): Owned { ReadState(d.record) }

  function Apps(d: Disk): set<string> { Previous(d).Keys + d.baked.Keys }

  function TextIn(files: map<string, string>, app: string): string {
    if app in files then files[app] else ""
  }

  function WantedIn(baked: map<string, string>, app: string): seq<Entry> {
    if app in baked then ParseDeclared(baked[app]) else []
  }

  /** What a pass works from. */
  datatype Found = Found(baked: map<string, string>, files: map<string, string>, previous: Owned)

  function FoundOn(d: Disk): Found { Found(d.baked, d.files, Previous(d)) }

  function Visit(f: Found, app: string): Outcome {
    Converge(TextIn(f.files, app), WantedIn(f.baked, app), IdsOf(f.previous, app))
  }

  /** One visit's effect on the store: an empty text is no file. */
  function Lay(files: map<string, string>, app: string, r: Outcome): map<string, string> {
    if r.text == "" then files - {app} else files[app := r.text]
  }

  function LayAll(f: Found, files: map<string, string>, apps: seq<string>): map<string, string>
    decreases |apps|
  {
    if apps == [] then files else LayAll(f, Lay(files, apps[0], Visit(f, apps[0])), apps[1..])
  }

  /** One visit's entry in the new record. */
  function Claim(owned: Owned, app: string, r: Outcome): Owned {
    if r.owned == [] then owned else owned[app := r.owned]
  }

  function OwnAll(f: Found, owned: Owned, apps: seq<string>): Owned
    decreases |apps|
  {
    if apps == [] then owned else OwnAll(f, Claim(owned, apps[0], Visit(f, apps[0])), apps[1..])
  }

  const UNCHANGED := Changed([], [])

  function Tell(app: string, r: Outcome): seq<(string, Changed)> {
    if r.changed == UNCHANGED then [] else [(app, r.changed)]
  }

  /** What the pass says it did, application by application. */
  function Report(f: Found, apps: seq<string>): seq<(string, Changed)> {
    if apps == [] then [] else Tell(apps[0], Visit(f, apps[0])) + Report(f, apps[1..])
  }

  /** A visit leaves its file alone when it would write what is there. */
  function Rewrite(files: map<string, string>, app: string, r: Outcome): seq<string> {
    if (if r.text == "" then app in files else r.text != TextIn(files, app)) then [app] else []
  }

  function Rewritten(f: Found, apps: seq<string>): seq<string> {
    if apps == [] then [] else Rewrite(f.files, apps[0], Visit(f, apps[0])) + Rewritten(f, apps[1..])
  }

  /** The visit has a file to write or remove, and that fails. */
  predicate Stops(f: Found, app: string, fails: set<string>) {
    app in fails && Rewrite(f.files, app, Visit(f, app)) != []
  }

  /** How many visits a pass makes before one fails. */
  function Reach(f: Found, apps: seq<string>, fails: set<string>): (n: nat)
    ensures n <= |apps|
  {
    if apps == [] || Stops(f, apps[0], fails) then 0 else 1 + Reach(f, apps[1..], fails)
  }

  function RecordAfter(d: Disk, owned: Owned): Option<string> {
    if owned == Previous(d) then d.record else Some(WriteState(owned))
  }

  function Visiting(d: Disk): seq<string> { Sorted(Apps(d)) }

  function Pass(d: Disk): Disk {
    var f := FoundOn(d);
    Disk(d.baked, LayAll(f, d.files, Visiting(d)), RecordAfter(d, OwnAll(f, map[], Visiting(d))))
  }

  /** A pass that ends early after `n` visits: its record is not written. */
  function CutPass(d: Disk, n: nat): Disk {
    d.(files := LayAll(FoundOn(d), d.files, Front(Visiting(d), n)))
  }

  function Front(apps: seq<string>, n: nat): seq<string> { if n < |apps| then apps[..n] else apps }

  /** The directories of one scope, changed in place. */
  class ScopeStore {
    var baked: map<string, string>
    var files: map<string, string>
    var record: Option<string>
    /** Names of the store files written or removed so far, in order. */
    var touched: seq<string>
    /** How often the record was written. */
    var recorded: nat

    function View(): Disk
      reads this
    {
      Disk(baked, files, record)
    }

    constructor (d: Disk)
      ensures View() == d && touched == [] && recorded == 0
    {
      baked, files, record, touched, recorded := d.baked, d.files, d.record, [], 0;
    }

    /** One application's merge, while its file is still as the pass found it. */
    method MergeApp(ghost f: Found, app: string, previous: Owned) returns (r: Outcome)
      requires baked == f.baked && previous == f.previous && SameFile(f.files, files, app)
      ensures r == Visit(f, app)
    {
      var wanted := if app in baked then ParseDeclared(baked[app]) else [];
      var live := if app in files then files[app] else "";
      r := RunConverge(live, wanted, IdsOf(previous, app));
    }

    /** What is written back: nothing where the file already says it. */
    method PutApp(app: string, r: Outcome)
      modifies `files, `touched
      ensures files == Lay(old(files), app, r)
      ensures touched == old(touched) + Rewrite(old(files), app, r)
    {
      if r.text == "" {
        if app in files {
          files := files - {app};
          touched := touched + [app];
        }
      } else if r.text != TextIn(files, app) {
        files := files[app := r.text];
        touched := touched + [app];
      }
    }

    /** What one visit adds to the report and to the new record. */
    static method Book(app: string, r: Outcome, report: seq<(string, Changed)>, owned: Owned)
      returns (told: seq<(string, Changed)>, claimed: Owned)
      ensures told == report + Tell(app, r) && claimed == Claim(owned, app, r)
    {
      told, claimed := report, owned;
      if r.owned != [] {
        claimed := owned[app := r.owned];
      }
      if r.changed != UNCHANGED {
        told := report + [(app, r.changed)];
      }
    }

    /** The loop of the pass, over the applications in order, up to the first
        file that cannot be written. */
    method VisitAll(apps: seq<string>, previous: Owned, fails: set<string>)
      returns (reached: nat, report: seq<(string, Changed)>, owned: Owned)
      requires NoDuplicates(apps)
      modifies `files, `touched
      ensures var f := Found(baked, old(files), previous); reached == Reach(f, apps, fails)
      ensures var f := Found(baked, old(files), previous); var done := apps[..reached];
        && files == LayAll(f, old(files), done)
        && owned == OwnAll(f, map[], done)
        && report == Report(f, done)
        && touched == old(touched) + Rewritten(f, done)
    {
      ghost var f := Found(baked, files, previous);
      ghost var start := Progress(files, map[], [], touched);
      reached := 0;
      report, owned := [], map[];
      while reached < |apps|
        invariant reached <= Reach(f, apps, fails)
        invariant Progress(files, owned, report, touched) == Visits(f, start, apps[..reached])
        invariant SameFiles(f.files, files, apps, reached)
      {
        var app := apps[reached];
        var r := MergeApp(f, app, previous);
        SameFilesStep(f.files, files, apps, reached, r);
        ReachAt(f, apps, fails, reached);
        if app in fails && Rewrite(files, app, r) != [] {
          break;
        }
        VisitsStep(f, start, apps, reached);
        PutApp(app, r);
        report, owned := Book(app, r, report, owned);
        reached := reached + 1;
      }
      VisitsAre(f, old(touched), apps[..reached]);
    }

    /** The record is written only when it would say something else. */
    method PutRecord(owned: Owned, previous: Owned)
      modifies `record, `recorded
      ensures record == if owned == previous then old(record) else Some(WriteState(owned))
      ensures recorded == old(recorded) + (if owned == previous then 0 else 1)
    {
      if owned != previous {
        var text := SaveState(owned);
        record := Some(text);
        recorded := recorded + 1;
      }
    }

    /** One pass. `fails` are the files that cannot be written or removed; the
        record may not be writable either. Any failure ends the pass and leaves
        the record as it was. */
    method ConvergeStore(fails: set<string>, recordFails: bool) returns (report: Option<seq<(string, Changed)>>)
      modifies this
      ensures var d := old(View());
        var f, apps := FoundOn(d), Visiting(d);
        var n := Reach(f, apps, fails);
        && touched == old(touched) + Rewritten(f, apps[..n])
        && if n < |apps| || (recordFails && OwnedAfter(d) != Previous(d))
           then report.None? && View() == CutPass(d, n) && recorded == old(recorded)
           else report == Some(Report(f, apps)) && View() == Pass(d)
                && recorded == old(recorded) + (if OwnedAfter(d) == Previous(d) then 0 else 1)
    {
      ghost var d := View();
      var previous := LoadState(record);
      var apps := Sorted(previous.Keys + baked.Keys);
      FoundOnIs(d, previous, apps);
      var reached, told, owned := VisitAll(apps, previous, fails);
      if reached < |apps| {
        return None;
      }
      assert apps[..reached] == apps;
      if recordFails && owned != previous {
        return None;
      }
      PutRecord(owned, previous);
      report := Some(told);
    }
  }

  lemma {:induction false} ReachAt(f: Found, apps: seq<string>, fails: set<string>, i: nat)
    requires i < |apps| && i <= Reach(f, apps, fails)
    ensures i < Reach(f, apps, fails) <==> !Stops(f, apps[i], fails)
  {
    if i > 0 {
      ReachAt(f, apps[1..], fails, i - 1);
    }
  }

  predicate SameFile(a: map<string, string>, b: map<string, string>, app: string) {
    TextIn(a, app) == TextIn(b, app) && (app in a <==> app in b)
  }

  predicate SameFiles(a: map<string, string>, b: map<string, string>, apps: seq<string>, i: nat) {
    forall j | i <= j < |apps| :: SameFile(a, b, apps[j])
  }

  lemma FoundOnIs(d: Disk, previous: Owned, apps: seq<string>)
    requires previous == Previous(d) && apps == Sorted(previous.Keys + d.baked.Keys)
    ensures FoundOn(d) == Found(d.baked, d.files, previous) && Visiting(d) == apps && NoDuplicates(apps)
  {}

  lemma SameFilesStep(found: map<string, string>, files: map<string, string>, apps: seq<string>, i: nat, r: Outcome)
    requires i < |apps| && NoDuplicates(apps) && SameFiles(found, files, apps, i)
    ensures SameFiles(found, Lay(files, apps[i], r), apps, i + 1)
    ensures Rewrite(found, apps[i], r) == Rewrite(files, apps[i], r)
  {
    assert SameFile(found, files, apps[i]);
    forall j | i + 1 <= j < |apps| ensures SameFile(found, Lay(files, apps[i], r), apps[j]) {
      assert SameFile(found, files, apps[j]);
    }
  }

  /** What a pass has done so far: store, record, report and files rewritten. */
  datatype Progress = Progress(
    files: map<string, string>, owned: Owned, report: seq<(string, Changed)>, touched: seq<string>)

  function OneVisit(p: Progress, app: string, r: Outcome): Progress {
    Progress(Lay(p.files, app, r), Claim(p.owned, app, r), p.report + Tell(app, r),
             p.touched + Rewrite(p.files, app, r))
  }

  function Visits(f: Found, p: Progress, apps: seq<string>): Progress {
    if apps == [] then p
    else
      var n := |apps| - 1;
      OneVisit(Visits(f, p, apps[..n]), apps[n], Visit(f, apps[n]))
  }

  lemma VisitsStep(f: Found, p: Progress, apps: seq<string>, i: nat)
    requires i < |apps|
    ensures Visits(f, p, apps[..i + 1]) == OneVisit(Visits(f, p, apps[..i]), apps[i], Visit(f, apps[i]))
  {
    assert apps[..i + 1][..i] == apps[..i];
  }

  lemma {:induction false} ReportAppend(f: Found, a: seq<string>, b: seq<string>)
    ensures Report(f, a + b) == Report(f, a) + Report(f, b)
  {
    if a == [] {
      assert a + b == b;
    } else {
      assert (a + b)[0] == a[0] && (a + b)[1..] == a[1..] + b;
      ReportAppend(f, a[1..], b);
      SeqAssociative(Tell(a[0], Visit(f, a[0])), Report(f, a[1..]), Report(f, b));
    }
  }

  lemma {:induction false} RewrittenAppend(f: Found, a: seq<string>, b: seq<string>)
    ensures Rewritten(f, a + b) == Rewritten(f, a) + Rewritten(f, b)
  {
    if a == [] {
      assert a + b == b;
    } else {
      assert (a + b)[0] == a[0] && (a + b)[1..] == a[1..] + b;
      RewrittenAppend(f, a[1..], b);
      SeqAssociative(Rewrite(f.files, a[0], Visit(f, a[0])), Rewritten(f, a[1..]), Rewritten(f, b));
    }
  }

  lemma {:induction false} LayAppend(f: Found, files: map<string, string>, a: seq<string>, b: seq<string>)
    ensures LayAll(f, files, a + b) == LayAll(f, LayAll(f, files, a), b)
    decreases |a|
  {
    if a == [] {
      assert a + b == b;
    } else {
      assert (a + b)[0] == a[0] && (a + b)[1..] == a[1..] + b;
      LayAppend(f, Lay(files, a[0], Visit(f, a[0])), a[1..], b);
    }
  }

  lemma {:induction false} OwnAppend(f: Found, owned: Owned, a: seq<string>, b: seq<string>)
    ensures OwnAll(f, owned, a + b) == OwnAll(f, OwnAll(f, owned, a), b)
    decreases |a|
  {
    if a == [] {
      assert a + b == b;
    } else {
      assert (a + b)[0] == a[0] && (a + b)[1..] == a[1..] + b;
      OwnAppend(f, Claim(owned, a[0], Visit(f, a[0])), a[1..], b);
    }
  }

  lemma OneMore(f: Found, app: string)
    ensures forall files :: LayAll(f, files, [app]) == Lay(files, app, Visit(f, app))
    ensures forall owned :: OwnAll(f, owned, [app]) == Claim(owned, app, Visit(f, app))
    ensures Report(f, [app]) == Tell(app, Visit(f, app))
    ensures Rewritten(f, [app]) == Rewrite(f.files, app, Visit(f, app))
  {
    assert [app][1..] == [];
    assert Tell(app, Visit(f, app)) + [] == Tell(app, Visit(f, app));
    assert Rewrite(f.files, app, Visit(f, app)) + [] == Rewrite(f.files, app, Visit(f, app));
  }

  /** Visit by visit is what the pass is specified to do. */
  lemma {:induction false} VisitsAre(f: Found, touched: seq<string>, apps: seq<string>)
    requires NoDuplicates(apps)
    ensures Visits(f, Progress(f.files, map[], [], touched), apps)
            == Progress(LayAll(f, f.files, apps), OwnAll(f, map[], apps), Report(f, apps), touched + Rewritten(f, apps))
  {
    if apps == [] {
      assert touched + [] == touched;
    } else {
      var n := |apps| - 1;
      var front, app := apps[..n], apps[n];
      assert apps == front + [app];
      VisitsAre(f, touched, front);
      LayAllFiles(f, f.files, front, app);
      OneMore(f, app);
      LayAppend(f, f.files, front, [app]);
      OwnAppend(f, map[], front, [app]);
      ReportAppend(f, front, [app]);
      RewrittenAppend(f, front, [app]);
      SeqAssociative(touched, Rewritten(f, front), Rewritten(f, [app]));
    }
  }

  /** What is in the store after the visits: each file is its own visit's. */
  lemma {:induction false} LayAllFiles(f: Found, files: map<string, string>, apps: seq<string>, app: string)
    requires NoDuplicates(apps)
    ensures var after := LayAll(f, files, apps);
      && TextIn(after, app) == (if app in apps then Visit(f, app).text else TextIn(files, app))
      && (app in after <==> if app in apps then Visit(f, app).text != "" else app in files)
    decreases |apps|
  {
    if apps != [] {
      LayAllFiles(f, Lay(files, apps[0], Visit(f, apps[0])), apps[1..], app);
    }
  }

  lemma {:induction false} OwnAllIds(f: Found, owned: Owned, apps: seq<string>, app: string)
    requires NoDuplicates(apps) && forall a <- apps :: a !in owned
    ensures var after := OwnAll(f, owned, apps);
      && (app in after <==> if app in apps then Visit(f, app).owned != [] else app in owned)
      && IdsOf(after, app) == (if app in apps then Visit(f, app).owned else IdsOf(owned, app))
    decreases |apps|
  {
    if apps != [] {
      var next := Claim(owned, apps[0], Visit(f, apps[0]));
      assert apps[0] in apps;
      forall a | a in apps[1..] ensures a !in next {
        assert a in apps;
      }
      OwnAllIds(f, next, apps[1..], app);
    }
  }

  // ----- runs -----

  /** A key of one application's file. */
  datatype Key = Key(app: string, group: string, key: string)

  /** A disk, every key any image so far has declared, and the store as third
      parties last left it. */
  datatype World = World(disk: Disk, declared: set<Key>, theirs: map<string, string>)

  datatype Step =
    | Switch(baked: map<string, string>)  // another image boots
    | RunPass                             // a converge pass
    | FailPass(visits: nat)               // one that fails after some visits
    | Edit(app: string, text: string)     // a third party writes a file
    | Delete(app: string)                 // or removes one

  function KeysOf(app: string, wanted: seq<Entry>): set<Key> {
    set e | e in wanted :: Key(app, e.group, e.key)
  }

  function DeclaredBy(baked: map<string, string>): set<Key> {
    set app, e | app in baked && e in ParseDeclared(baked[app]) :: Key(app, e.group, e.key)
  }

  function Next(w: World, step: Step): World {
    match step
    case Switch(baked) => World(w.disk.(baked := baked), w.declared + DeclaredBy(baked), w.theirs)
    case RunPass => w.(disk := Pass(w.disk))
    case FailPass(visits) => w.(disk := CutPass(w.disk, visits))
    case Edit(app, text) => World(w.disk.(files := w.disk.files[app := text]), w.declared, w.theirs[app := text])
    case Delete(app) => World(w.disk.(files := w.disk.files - {app}), w.declared, w.theirs - {app})
  }

  function Run(w: World, steps: seq<Step>): World
    decreases |steps|
  {
    if steps == [] then w else Run(Next(w, steps[0]), steps[1..])
  }

  /** One baked file: entries a keyfile can hold, no key twice, group names
      without tabs. */
  predicate LegalBaked(text: string) {
    var wanted := ParseDeclared(text);
    Legal(wanted) && Distinct(wanted) && forall e <- wanted :: '\t' !in e.group
  }

  predicate LegalImage(baked: map<string, string>) {
    forall app <- baked :: PlainName(app) && LegalBaked(baked[app])
  }

  /** What the build bakes is of this kind, for every valid table whose values
      end well. */
  lemma BakedIsLegal(app: AppOverride)
    requires Valid(app) && ValuesEndWell(app)
    ensures LegalBaked(Bake(DeclaredKeys(app)))
  {
    BakedDeclarationIsReadBack(app);
    DeclaredKeysLegal(app);
    GroupNames();
    assert AllIn(DeclaredKeys(app), {CONTEXT, ENVIRONMENT, SESSION_BUS, SYSTEM_BUS});
  }

  predicate LegalStep(step: Step) {
    match step
    case Switch(baked) => LegalImage(baked)
    case RunPass => true
    case FailPass(_) => true
    case Edit(_, text) => WellFormed(text)
    case Delete(_) => true
  }

  /** A machine that no pass has run on yet. */
  predicate Fresh(w: World) {
    && LegalImage(w.disk.baked) && w.disk.record.None?
    && (forall app <- w.disk.files :: WellFormed(w.disk.files[app]))
    && w.declared == DeclaredBy(w.disk.baked) && w.theirs == w.disk.files
  }

  function Holds(files: map<string, string>, k: Key): Option<string> {
    Find(Parse(TextIn(files, k.app)), k.group, k.key)
  }

  /** An id of the record names one key that some image declared. */
  predicate Recorded(id: string, app: string, declared: set<Key>) {
    Clean(id) && SplitId(id).Some? && Key(app, SplitId(id).value.0, SplitId(id).value.1) in declared
  }

  predicate GoodRecord(owned: Owned, declared: set<Key>) {
    forall app <- owned ::
      PlainName(app) && owned[app] != [] && NoDuplicates(owned[app])
      && forall id <- owned[app] :: Recorded(id, app, declared)
  }

  predicate FilesWellFormed(files: map<string, string>) {
    forall app <- files :: WellFormed(files[app])
  }

  /** What every reachable world keeps. */
  ghost predicate Inv(w: World) {
    && LegalImage(w.disk.baked) && DeclaredBy(w.disk.baked) <= w.declared
    && FilesWellFormed(w.disk.files)
    && GoodRecord(Previous(w.disk), w.declared)
    && (forall k <- w.declared :: k.group != "")
    && forall k :: k !in w.declared ==> Holds(w.disk.files, k) == Holds(w.theirs, k)
  }

  lemma EmptyWellFormed()
    ensures WellFormed("")
  {
    ParseEmpty();
  }

  // ----- one visit -----

  lemma VisitDecides(w: World, app: string, group: string, key: string)
    requires Inv(w)
    ensures var d := w.disk; var out := Visit(FoundOn(d), app).text;
      && WellFormed(out)
      && Find(Parse(out), group, key) ==
         (if Asked(WantedIn(d.baked, app), group, key).Some? then Asked(WantedIn(d.baked, app), group, key)
          else if Released(IdsOf(Previous(d), app), Ids(WantedIn(d.baked, app)), group, key) then None
          else Find(Parse(TextIn(d.files, app)), group, key))
  {
    EmptyWellFormed();
    var wanted, previously := WantedIn(w.disk.baked, app), IdsOf(Previous(w.disk), app);
    ConvergeDecidesKeys(TextIn(w.disk.files, app), wanted, previously, group, key);
  }

  lemma {:induction false} AskedIsListed(wanted: seq<Entry>, group: string, key: string)
    requires Asked(wanted, group, key).Some?
    ensures Entry(group, key, Asked(wanted, group, key).value) in wanted
  {
    if Asked(wanted[1..], group, key).Some? {
      AskedIsListed(wanted[1..], group, key);
    }
  }

  /** A key no image ever declared comes out of a visit as it went in. */
  lemma VisitSparesOthers(w: World, k: Key)
    requires Inv(w) && k !in w.declared
    ensures Find(Parse(Visit(FoundOn(w.disk), k.app).text), k.group, k.key) == Holds(w.disk.files, k)
  {
    var d := w.disk;
    VisitDecides(w, k.app, k.group, k.key);
    if Asked(WantedIn(d.baked, k.app), k.group, k.key).Some? {
      AskedIsListed(WantedIn(d.baked, k.app), k.group, k.key);
    }
    forall id | id in IdsOf(Previous(d), k.app) ensures SplitId(id) != Some((k.group, k.key)) {
      assert Recorded(id, k.app, w.declared);
    }
  }

  lemma PassFiles(d: Disk, app: string)
    ensures TextIn(Pass(d).files, app) == if app in Apps(d) then Visit(FoundOn(d), app).text else TextIn(d.files, app)
    ensures app in Pass(d).files <==> if app in Apps(d) then Visit(FoundOn(d), app).text != "" else app in d.files
  {
    LayAllFiles(FoundOn(d), d.files, Visiting(d), app);
  }

  lemma CutPassFiles(d: Disk, n: nat, app: string)
    ensures TextIn(CutPass(d, n).files, app) in {Visit(FoundOn(d), app).text, TextIn(d.files, app)}
    ensures app in CutPass(d, n).files && TextIn(CutPass(d, n).files, app) != TextIn(d.files, app) ==>
              TextIn(CutPass(d, n).files, app) == Visit(FoundOn(d), app).text
  {
    var apps := Visiting(d);
    var done := Front(apps, n);
    assert NoDuplicates(done);
    LayAllFiles(FoundOn(d), d.files, done, app);
  }

  // ----- what a pass touches -----

  /** The file is there in both or in neither, with the same text. */
  predicate Unchanged(before: map<string, string>, after: map<string, string>, app: string) {
    (app in before <==> app in after) && (app in before && app in after ==> before[app] == after[app])
  }

  lemma {:induction false} RewrittenAre(f: Found, apps: seq<string>, app: string)
    ensures app in Rewritten(f, apps) <==> app in apps && Rewrite(f.files, app, Visit(f, app)) != []
  {
    if apps != [] {
      RewrittenAre(f, apps[1..], app);
    }
  }

  lemma RewriteMeans(f: Found, files: map<string, string>, app: string)
    requires app in files <==> Visit(f, app).text != ""
    requires TextIn(files, app) == Visit(f, app).text
    ensures Rewrite(f.files, app, Visit(f, app)) != [] <==> !Unchanged(f.files, files, app)
  {}

  lemma {:induction false} RewrittenOnce(f: Found, apps: seq<string>)
    requires NoDuplicates(apps)
    ensures NoDuplicates(Rewritten(f, apps))
  {
    if apps != [] {
      RewrittenOnce(f, apps[1..]);
      RewrittenAre(f, apps[1..], apps[0]);
    }
  }

  lemma LaidTouches(f: Found, done: seq<string>, app: string)
    requires NoDuplicates(done)
    ensures app in Rewritten(f, done) <==> !Unchanged(f.files, LayAll(f, f.files, done), app)
  {
    LayAllFiles(f, f.files, done, app);
    RewrittenAre(f, done, app);
    if app in done {
      RewriteMeans(f, LayAll(f, f.files, done), app);
    }
  }

  lemma FrontIs(apps: seq<string>, n: nat)
    requires n <= |apps|
    ensures Front(apps, n) == apps[..n]
  {}



  /** The files a pass writes or removes, ended early or not, are exactly those
      that differ afterwards, each once. */
  lemma PassTouches(d: Disk, n: nat, app: string)
    requires n <= |Visiting(d)|
    ensures var touched := Rewritten(FoundOn(d), Visiting(d)[..n]);
      NoDuplicates(touched) && (app in touched <==> !Unchanged(d.files, CutPass(d, n).files, app))
    ensures CutPass(d, |Visiting(d)|).files == Pass(d).files
  {
    RewrittenOnce(FoundOn(d), Visiting(d)[..n]);
    LaidTouches(FoundOn(d), Visiting(d)[..n], app);
    FrontIs(Visiting(d), n);
  }

  lemma StopsMeans(d: Disk, app: string, fails: set<string>)
    requires app in Visiting(d)
    ensures Stops(FoundOn(d), app, fails) <==> app in fails && !Unchanged(d.files, Pass(d).files, app)
  {
    LayAllFiles(FoundOn(d), d.files, Visiting(d), app);
    RewriteMeans(FoundOn(d), Pass(d).files, app);
  }

  /** A pass ends at the first file that cannot be written and would have
      changed: it makes all its visits exactly when no such file would have. */
  lemma PassStopsAt(d: Disk, fails: set<string>)
    ensures var apps := Visiting(d); var n := Reach(FoundOn(d), apps, fails);
      && (forall app <- apps[..n] :: app in fails ==> Unchanged(d.files, Pass(d).files, app))
      && (n < |apps| ==> apps[n] in fails && !Unchanged(d.files, Pass(d).files, apps[n]))
      && (n == |apps| <==> forall app <- fails :: Unchanged(d.files, Pass(d).files, app))
  {
    var f, apps := FoundOn(d), Visiting(d);
    var n := Reach(f, apps, fails);
    forall i | 0 <= i < n ensures apps[i] in fails ==> Unchanged(d.files, Pass(d).files, apps[i]) {
      ReachAt(f, apps, fails, i);
      StopsMeans(d, apps[i], fails);
    }
    if n < |apps| {
      ReachAt(f, apps, fails, n);
      StopsMeans(d, apps[n], fails);
    } else {
      forall app | app in fails ensures Unchanged(d.files, Pass(d).files, app) {
        LayAllFiles(f, d.files, apps, app);
        if app in apps {
          assert app in apps[..n];
        }
      }
    }
  }

  // ----- the record after a pass -----

  lemma {:induction false} IdsListed(wanted: seq<Entry>, id: string)
    ensures id in Ids(wanted) <==> exists e <- wanted :: id == OwnedId(e.group, e.key)
    ensures |Ids(wanted)| == |wanted|
  {
    if wanted != [] {
      IdsListed(wanted[1..], id);
      assert forall e <- wanted :: e == wanted[0] || e in wanted[1..];
    }
  }

  lemma {:induction false} IdsDistinct(wanted: seq<Entry>)
    requires Distinct(wanted) && forall e <- wanted :: '\t' !in e.group
    ensures NoDuplicates(Ids(wanted))
  {
    if wanted != [] {
      var w, rest := wanted[0], wanted[1..];
      IdsDistinct(rest);
      IdsListed(rest, OwnedId(w.group, w.key));
      if OwnedId(w.group, w.key) in Ids(rest) {
        var e :| e in rest && OwnedId(w.group, w.key) == OwnedId(e.group, e.key);
        assert w in wanted && e in wanted;
        SplitOwnedId(w.group, w.key);
        SplitOwnedId(e.group, e.key);
        assert false;
      }
    }
  }

  lemma IdsRecorded(app: string, wanted: seq<Entry>, declared: set<Key>)
    requires Legal(wanted) && KeysOf(app, wanted) <= declared && forall e <- wanted :: '\t' !in e.group
    ensures forall id <- Ids(wanted) :: Recorded(id, app, declared)
  {
    LegalIsClean(wanted);
    forall id | id in Ids(wanted) ensures Recorded(id, app, declared) {
      IdsListed(wanted, id);
      var e :| e in wanted && id == OwnedId(e.group, e.key);
      SplitOwnedId(e.group, e.key);
      assert Key(app, e.group, e.key) in KeysOf(app, wanted);
    }
  }

  /** The record an image asks for: exactly its declared keys. */
  function DeclaredRecord(baked: map<string, string>): Owned {
    map app | app in baked && ParseDeclared(baked[app]) != [] :: Ids(ParseDeclared(baked[app]))
  }

  function OwnedAfter(d: Disk): Owned { OwnAll(FoundOn(d), map[], Visiting(d)) }

  lemma OwnedByImage(d: Disk, app: string)
    ensures var owned, record := OwnedAfter(d), DeclaredRecord(d.baked);
      && (app in owned <==> app in record)
      && (app in record ==> owned[app] == record[app])
  {
    OwnAllIds(FoundOn(d), map[], Visiting(d), app);
    IdsListed(WantedIn(d.baked, app), "");
  }

  lemma OwnedIsDeclared(d: Disk)
    ensures OwnedAfter(d) == DeclaredRecord(d.baked)
  {
    var owned, record := OwnedAfter(d), DeclaredRecord(d.baked);
    forall app
      ensures app in owned <==> app in record
      ensures app in record ==> owned[app] == record[app]
    {
      OwnedByImage(d, app);
    }
  }

  lemma DeclaredRecordGood(baked: map<string, string>, declared: set<Key>)
    requires LegalImage(baked) && DeclaredBy(baked) <= declared
    ensures GoodRecord(DeclaredRecord(baked), declared) && Recordable(DeclaredRecord(baked))
  {
    var owned := DeclaredRecord(baked);
    forall app | app in owned
      ensures PlainName(app) && owned[app] != [] && NoDuplicates(owned[app]) && PlainIds(owned[app])
      ensures forall id <- owned[app] :: Recorded(id, app, declared)
    {
      var wanted := ParseDeclared(baked[app]);
      assert LegalBaked(baked[app]);
      IdsListed(wanted, "");
      IdsDistinct(wanted);
      assert KeysOf(app, wanted) <= DeclaredBy(baked);
      IdsRecorded(app, wanted, declared);
      forall id | id in owned[app] ensures Clean(id) && SplitId(id).Some? {
        assert Recorded(id, app, declared);
      }
    }
  }

  /** After a pass the record reads as exactly the keys the image declares. */
  lemma PassRecords(w: World)
    requires Inv(w)
    ensures Previous(Pass(w.disk)) == DeclaredRecord(w.disk.baked)
    ensures GoodRecord(Previous(Pass(w.disk)), w.declared)
  {
    OwnedIsDeclared(w.disk);
    DeclaredRecordGood(w.disk.baked, w.declared);
    StateRoundTrip(DeclaredRecord(w.disk.baked));
  }

  // ----- the theorems -----

  lemma PassKeepsInv(w: World)
    requires Inv(w)
    ensures Inv(Next(w, RunPass))
  {
    var w' := Next(w, RunPass);
    PassRecords(w);
    forall app | app in w'.disk.files ensures WellFormed(w'.disk.files[app]) {
      PassFiles(w.disk, app);
      VisitDecides(w, app, "", "");
    }
    forall k | k !in w.declared ensures Holds(w'.disk.files, k) == Holds(w.theirs, k) {
      PassFiles(w.disk, k.app);
      VisitSparesOthers(w, k);
    }
  }

  /** A pass that fails keeps it too: its record is behind, and no more. */
  lemma CutPassKeepsInv(w: World, n: nat)
    requires Inv(w)
    ensures Inv(Next(w, FailPass(n)))
  {
    var w' := Next(w, FailPass(n));
    forall app | app in w'.disk.files ensures WellFormed(w'.disk.files[app]) {
      CutPassFiles(w.disk, n, app);
      VisitDecides(w, app, "", "");
      EmptyWellFormed();
    }
    forall k | k !in w.declared ensures Holds(w'.disk.files, k) == Holds(w.theirs, k) {
      CutPassFiles(w.disk, n, k.app);
      VisitSparesOthers(w, k);
    }
  }

  lemma StepKeepsInv(w: World, step: Step)
    requires Inv(w) && LegalStep(step)
    ensures Inv(Next(w, step))
  {
    match step
    case RunPass => PassKeepsInv(w);
    case FailPass(n) => CutPassKeepsInv(w, n);
    case Switch(baked) =>
      GoodRecordGrows(Previous(w.disk), w.declared, w.declared + DeclaredBy(baked));
    case Edit(app, text) =>
    case Delete(app) =>
  }

  lemma GoodRecordGrows(owned: Owned, declared: set<Key>, more: set<Key>)
    requires GoodRecord(owned, declared) && declared <= more
    ensures GoodRecord(owned, more)
  {
    forall app | app in owned ensures forall id <- owned[app] :: Recorded(id, app, more) {
      forall id | id in owned[app] ensures Recorded(id, app, more) {
        assert Recorded(id, app, declared);
      }
    }
  }

  /** The invariant holds over every run. */
  lemma {:induction false} RunKeepsInv(w: World, steps: seq<Step>)
    requires Inv(w) && forall s <- steps :: LegalStep(s)
    ensures Inv(Run(w, steps))
    decreases |steps|
  {
    if steps != [] {
      assert steps[0] in steps;
      StepKeepsInv(w, steps[0]);
      RunKeepsInv(Next(w, steps[0]), steps[1..]);
    }
  }

  lemma FreshIsInv(w: World)
    requires Fresh(w)
    ensures Inv(w)
  {}

  /** Ownership over runs: whatever images boot and passes run, a key no image
      ever declared has the value a third party last gave it. */
  lemma UndeclaredKeysAreTheirs(w: World, steps: seq<Step>, k: Key)
    requires Fresh(w) && forall s <- steps :: LegalStep(s)
    requires k !in Run(w, steps).declared
    ensures Holds(Run(w, steps).disk.files, k) == Holds(Run(w, steps).theirs, k)
  {
    FreshIsInv(w);
    RunKeepsInv(w, steps);
  }

  /** A pass settles the store: declared keys hold their values, keys owned
      before and not declared are gone, keys neither owned nor declared are as
      they were, and the record is exactly what the image declares. */
  lemma PassSettles(w: World, app: string, group: string, key: string)
    requires Inv(w)
    ensures var d := w.disk; var d' := Pass(d);
      var held := Find(Parse(TextIn(d'.files, app)), group, key);
      && (forall e <- WantedIn(d.baked, app) :: e.group == group && e.key == key ==> held == Some(e.value))
      && (Released(IdsOf(Previous(d), app), Ids(WantedIn(d.baked, app)), group, key) ==> held == None)
      && (Asked(WantedIn(d.baked, app), group, key).None?
          && !Released(IdsOf(Previous(d), app), Ids(WantedIn(d.baked, app)), group, key)
          ==> held == Find(Parse(TextIn(d.files, app)), group, key))
      && Previous(d') == DeclaredRecord(d.baked)
  {
    var d := w.disk;
    PassRecords(w);
    PassFiles(d, app);
    VisitDecides(w, app, group, key);
    var wanted := WantedIn(d.baked, app);
    forall e | e in wanted && e.group == group && e.key == key
      ensures Asked(wanted, group, key) == Some(e.value)
    {
      var i :| 0 <= i < |wanted| && wanted[i] == e;
      assert LegalBaked(d.baked[app]);
      DistinctAsked(wanted, i);
    }
    if Released(IdsOf(Previous(d), app), Ids(wanted), group, key) && Asked(wanted, group, key).Some? {
      var id :| id in IdsOf(Previous(d), app) && id !in Ids(wanted) && SplitId(id) == Some((group, key));
      SplitIdIsId(id);
      AskedIsOwned(wanted, group, key);
    }
  }

  lemma SecondVisit(w: World, app: string)
    requires Inv(w) && app in Apps(Pass(w.disk))
    ensures Quiet(FoundOn(Pass(w.disk)), app)
  {
    var d := Pass(w.disk);
    var wanted := WantedIn(w.disk.baked, app);
    PassRecords(w);
    assert app in w.disk.baked && LegalBaked(w.disk.baked[app]);
    PassFiles(w.disk, app);
    EmptyWellFormed();
    IdsListed(wanted, "");
    assert IdsOf(Previous(d), app) == Ids(wanted);
    ConvergeIsIdempotent(TextIn(w.disk.files, app), wanted, IdsOf(Previous(w.disk), app));
  }

  predicate Quiet(f: Found, app: string) {
    var r := Visit(f, app);
    r.changed == UNCHANGED && r.text == TextIn(f.files, app) && (app in f.files ==> r.text != "")
  }

  lemma {:induction false} QuietLists(f: Found, apps: seq<string>)
    requires forall app <- apps :: Quiet(f, app)
    ensures Report(f, apps) == [] && Rewritten(f, apps) == [] && LayAll(f, f.files, apps) == f.files
  {
    if apps != [] {
      var app := apps[0];
      assert Quiet(f, app) by { assert app in apps; }
      assert Lay(f.files, app, Visit(f, app)) == f.files;
      QuietLists(f, apps[1..]);
    }
  }

  /** What a failing pass leaves behind. It wrote a declared key and not the
      record; the image changes and no longer declares the key; the next pass
      succeeds. The key is still there exactly when the record before the failing
      pass did not own it. */
  lemma AFailedPassForgets(w: World, n: nat, baked: map<string, string>, app: string, group: string, key: string)
    requires Inv(w) && LegalImage(baked) && n <= |Visiting(w.disk)| && app in Visiting(w.disk)[..n] && '\t' !in group
    requires Asked(WantedIn(w.disk.baked, app), group, key).Some? && Asked(WantedIn(baked, app), group, key).None?
    ensures var after := Run(w, [FailPass(n), Switch(baked), RunPass]);
      Holds(after.disk.files, Key(app, group, key)).Some? <==> OwnedId(group, key) !in IdsOf(Previous(w.disk), app)
  {
    var cut := Next(w, FailPass(n));
    var booted := Next(cut, Switch(baked));
    ThreeSteps(w, FailPass(n), Switch(baked), RunPass);
    CutPassKeepsInv(w, n);
    StepKeepsInv(cut, Switch(baked));
    WroteTheKey(w, n, app, group, key);
    UndeclaredStays(booted, app, group, key);
  }

  lemma RunCons(w: World, a: Step, rest: seq<Step>)
    ensures Run(w, [a] + rest) == Run(Next(w, a), rest)
  {
    assert ([a] + rest)[1..] == rest;
  }

  lemma ThreeSteps(w: World, a: Step, b: Step, c: Step)
    ensures Run(w, [a, b, c]) == Next(Next(Next(w, a), b), c)
  {
    assert [a, b, c] == [a] + ([b] + ([c] + []));
    RunCons(w, a, [b] + ([c] + []));
    RunCons(Next(w, a), b, [c] + []);
    RunCons(Next(Next(w, a), b), c, []);
  }

  /** A key that is there and not declared stays exactly when it is not owned. */
  lemma UndeclaredStays(w: World, app: string, group: string, key: string)
    requires Inv(w) && '\t' !in group && Holds(w.disk.files, Key(app, group, key)).Some?
    requires Asked(WantedIn(w.disk.baked, app), group, key).None?
    ensures Holds(Pass(w.disk).files, Key(app, group, key)).Some? <==>
              OwnedId(group, key) !in IdsOf(Previous(w.disk), app)
  {
    var wanted := WantedIn(w.disk.baked, app);
    PassSettles(w, app, group, key);
    assert forall e <- wanted :: '\t' !in e.group by {
      assert app in w.disk.baked ==> LegalBaked(w.disk.baked[app]);
    }
    NotAskedNotOwned(wanted, group, key);
    ReleasedIsOwned(IdsOf(Previous(w.disk), app), Ids(wanted), group, key);
  }

  lemma WroteTheKey(w: World, n: nat, app: string, group: string, key: string)
    requires Inv(w) && n <= |Visiting(w.disk)| && app in Visiting(w.disk)[..n]
    requires Asked(WantedIn(w.disk.baked, app), group, key).Some?
    ensures Holds(CutPass(w.disk, n).files, Key(app, group, key)) == Asked(WantedIn(w.disk.baked, app), group, key)
  {
    var apps := Visiting(w.disk);
    assert NoDuplicates(apps[..n]);
    FrontIs(apps, n);
    LayAllFiles(FoundOn(w.disk), w.disk.files, apps[..n], app);
    VisitDecides(w, app, group, key);
  }

  lemma {:induction false} NotAskedNotOwned(wanted: seq<Entry>, group: string, key: string)
    requires '\t' !in group && (forall e <- wanted :: '\t' !in e.group)
    requires Asked(wanted, group, key).None?
    ensures OwnedId(group, key) !in Ids(wanted)
  {
    if wanted != [] {
      SplitOwnedId(group, key);
      SplitOwnedId(wanted[0].group, wanted[0].key);
      NotAskedNotOwned(wanted[1..], group, key);
    }
  }

  lemma ReleasedIsOwned(previously: seq<string>, owned: seq<string>, group: string, key: string)
    requires '\t' !in group && OwnedId(group, key) !in owned
    ensures Released(previously, owned, group, key) <==> OwnedId(group, key) in previously
  {
    SplitOwnedId(group, key);
    forall id | id in previously && SplitId(id) == Some((group, key)) ensures id == OwnedId(group, key) {
      SplitIdIsId(id);
    }
  }

  /** The second of two passes writes no file and no record, and has nothing
      to report. */
  lemma SecondPassIsQuiet(w: World)
    requires Inv(w)
    ensures var d := Pass(w.disk);
      && Pass(d) == d
      && Report(FoundOn(d), Visiting(d)) == []
      && Rewritten(FoundOn(d), Visiting(d)) == []
      && OwnedAfter(d) == Previous(d)
  {
    var d := Pass(w.disk);
    PassRecords(w);
    OwnedIsDeclared(d);
    forall app | app in Visiting(d) ensures Quiet(FoundOn(d), app) {
      SecondVisit(w, app);
    }
    QuietLists(FoundOn(d), Visiting(d));
  }
}
