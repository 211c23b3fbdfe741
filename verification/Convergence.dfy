/** One app's merge: a declaration laid over whatever the machine has
    (`converge` in `src/overrides.rs`). */
module Convergence {
  import opened Text
  import opened KeyFiles
  import opened KeyFileEdits
  import opened KeyFileObject

  /** A key the declaration asks for. */
  datatype Entry = Entry(group: string, key: string, value: string)

  /** The ids one merge wrote and took back. */
  datatype Changed = Changed(written: seq<string>, removed: seq<string>)

  datatype Outcome = Outcome(text: string, changed: Changed, owned: seq<string>)

  function OwnedId(group: string, key: string): string { group + "\t" + key }

  function SplitId(id: string): Option<(string, string)> {
    var at := IndexOf(id, '\t');
    if at == |id| then None else Some((id[..at], id[at + 1..]))
  }

  // ----- the merge as a function -----

  function Ids(wanted: seq<Entry>): seq<string> {
    if wanted == [] then [] else [OwnedId(wanted[0].group, wanted[0].key)] + Ids(wanted[1..])
  }

  function ApplyWanted(groups: seq<Group>, wanted: seq<Entry>): seq<Group>
    decreases |wanted|
  {
    if wanted == [] then groups
    else ApplyWanted(SetKey(groups, wanted[0].group, wanted[0].key, wanted[0].value), wanted[1..])
  }

  function Written(groups: seq<Group>, wanted: seq<Entry>): seq<string>
    decreases |wanted|
  {
    if wanted == [] then []
    else
      var w := wanted[0];
      (if Find(groups, w.group, w.key) != Some(w.value) then [OwnedId(w.group, w.key)] else []) +
      Written(SetKey(groups, w.group, w.key, w.value), wanted[1..])
  }

  /** What a previously owned id makes the merge remove, if anything. */
  function Doomed(groups: seq<Group>, id: string, owned: seq<string>): Option<(string, string)> {
    if id in owned then None
    else
      match SplitId(id)
      case None => None
      case Some(gk) => if Present(groups, gk.0, gk.1) then Some(gk) else None
  }

  function TakeBack(groups: seq<Group>, previously: seq<string>, owned: seq<string>): seq<Group>
    decreases |previously|
  {
    if previously == [] then groups
    else
      match Doomed(groups, previously[0], owned)
      case None => TakeBack(groups, previously[1..], owned)
      case Some(gk) => TakeBack(RemoveKey(groups, gk.0, gk.1), previously[1..], owned)
  }

  function TakenBack(groups: seq<Group>, previously: seq<string>, owned: seq<string>): seq<string>
    decreases |previously|
  {
    if previously == [] then []
    else
      match Doomed(groups, previously[0], owned)
      case None => TakenBack(groups, previously[1..], owned)
      case Some(gk) => [previously[0]] + TakenBack(RemoveKey(groups, gk.0, gk.1), previously[1..], owned)
  }

  /** A file with nothing in it to read is written as no file at all. */
  function Finish(rendered: string): string { if Trim(rendered) == "" then "" else rendered }

  function Merged(live: string, wanted: seq<Entry>, previously: seq<string>): seq<Group> {
    TakeBack(ApplyWanted(Parse(live), wanted), previously, Ids(wanted))
  }

  function Converge(live: string, wanted: seq<Entry>, previously: seq<string>): Outcome {
    var groups := Parse(live);
    Outcome(Finish(Render(Merged(live, wanted, previously))),
            Changed(Written(groups, wanted),
                    TakenBack(ApplyWanted(groups, wanted), previously, Ids(wanted))),
            Ids(wanted))
  }

  // ----- the merge as the program runs it -----

  lemma WantedStep(groups: seq<Group>, wanted: seq<Entry>, i: nat)
    requires i < |wanted|
    ensures var w := wanted[i]; var next := SetKey(groups, w.group, w.key, w.value);
      && ApplyWanted(groups, wanted[i..]) == ApplyWanted(next, wanted[i + 1..])
      && Ids(wanted[i..]) == [OwnedId(w.group, w.key)] + Ids(wanted[i + 1..])
      && Written(groups, wanted[i..]) ==
         (if Find(groups, w.group, w.key) != Some(w.value) then [OwnedId(w.group, w.key)] else [])
         + Written(next, wanted[i + 1..])
  {
    assert wanted[i..][0] == wanted[i] && wanted[i..][1..] == wanted[i + 1..];
  }

  method WriteWanted(file: KeyFile, wanted: seq<Entry>) returns (written: seq<string>, owned: seq<string>)
    modifies file
    ensures file.groups == ApplyWanted(old(file.groups), wanted)
    ensures written == Written(old(file.groups), wanted)
    ensures owned == Ids(wanted)
  {
    written, owned := [], [];
    for i := 0 to |wanted|
      invariant ApplyWanted(file.groups, wanted[i..]) == ApplyWanted(old(file.groups), wanted)
      invariant written + Written(file.groups, wanted[i..]) == Written(old(file.groups), wanted)
      invariant owned + Ids(wanted[i..]) == Ids(wanted)
    {
      WantedStep(file.groups, wanted, i);
      var w := wanted[i];
      var id := OwnedId(w.group, w.key);
      ghost var next := SetKey(file.groups, w.group, w.key, w.value);
      if Find(file.groups, w.group, w.key) != Some(w.value) {
        SeqAssociative(written, [id], Written(next, wanted[i + 1..]));
        written := written + [id];
      } else {
        assert [] + Written(next, wanted[i + 1..]) == Written(next, wanted[i + 1..]);
      }
      file.Set(w.group, w.key, w.value);
      SeqAssociative(owned, [id], Ids(wanted[i + 1..]));
      owned := owned + [id];
    }
  }

  method TakeBackKeys(file: KeyFile, previously: seq<string>, owned: seq<string>) returns (removed: seq<string>)
    modifies file
    ensures file.groups == TakeBack(old(file.groups), previously, owned)
    ensures removed == TakenBack(old(file.groups), previously, owned)
  {
    removed := [];
    for i := 0 to |previously|
      invariant TakeBack(file.groups, previously[i..], owned) == TakeBack(old(file.groups), previously, owned)
      invariant removed + TakenBack(file.groups, previously[i..], owned)
             == TakenBack(old(file.groups), previously, owned)
    {
      assert previously[i..][0] == previously[i] && previously[i..][1..] == previously[i + 1..];
      var id := previously[i];
      if id in owned {
        continue;
      }
      var split := SplitId(id);
      if split.None? {
        continue;
      }
      var (group, key) := split.value;
      if Present(file.groups, group, key) {
        file.Remove(group, key);
        removed := removed + [id];
      }
    }
  }

  method RunConverge(live: string, wanted: seq<Entry>, previously: seq<string>) returns (r: Outcome)
    ensures r == Converge(live, wanted, previously)
  {
    var file := new KeyFile.Parse(live);
    var written, owned := WriteWanted(file, wanted);
    var removed := TakeBackKeys(file, previously, owned);
    var rendered := file.Render();
    r := Outcome(if Trim(rendered) == "" then "" else rendered, Changed(written, removed), owned);
  }

  // ----- what callers hand in -----

  /** Entries a keyfile can hold: in a named group, on one line, read back as
      the same pair. `parse_declared` yields no other kind. */
  predicate LegalEntry(e: Entry) {
    e.group != "" && Clean(e.group) && FaithfulLine(Pair(e.key, e.value))
  }

  predicate Legal(wanted: seq<Entry>) { forall w <- wanted :: LegalEntry(w) }

  /** No key is asked for twice. */
  predicate Distinct(wanted: seq<Entry>) {
    forall i, j | 0 <= i < j < |wanted| ::
      !(wanted[i].group == wanted[j].group && wanted[i].key == wanted[j].key)
  }

  /** The value asked for, the last one if a key is asked for twice. */
  function Asked(wanted: seq<Entry>, group: string, key: string): Option<string> {
    if wanted == [] then None
    else
      match Asked(wanted[1..], group, key)
      case Some(v) => Some(v)
      case None =>
        if wanted[0].group == group && wanted[0].key == key then Some(wanted[0].value) else None
  }

  /** The key was kuma's and is not asked for any more. */
  predicate Released(previously: seq<string>, owned: seq<string>, group: string, key: string) {
    exists id <- previously :: id !in owned && SplitId(id) == Some((group, key))
  }

  lemma SplitIdIsId(id: string)
    requires SplitId(id).Some?
    ensures id == OwnedId(SplitId(id).value.0, SplitId(id).value.1)
    ensures '\t' !in SplitId(id).value.0
  {}

  lemma SplitOwnedId(group: string, key: string)
    requires '\t' !in group
    ensures SplitId(OwnedId(group, key)) == Some((group, key))
  {
    var id := OwnedId(group, key);
    assert id[..|group|] == group && id[|group| + 1..] == key;
    IndexOfIs(id, '\t', |group|);
  }

  // ----- the groups after a merge -----

  lemma {:induction false} ApplyWantedKeeps(groups: seq<Group>, wanted: seq<Entry>)
    requires Sound(groups) && Unique(groups) && Legal(wanted)
    ensures Sound(ApplyWanted(groups, wanted)) && Unique(ApplyWanted(groups, wanted))
    decreases |wanted|
  {
    if wanted != [] {
      var w := wanted[0];
      assert w in wanted;
      SetKeySound(groups, w.group, w.key, w.value);
      SetKeyUnique(groups, w.group, w.key, w.value);
      ApplyWantedKeeps(SetKey(groups, w.group, w.key, w.value), wanted[1..]);
    }
  }

  lemma {:induction false} ApplyWantedFinds(groups: seq<Group>, wanted: seq<Entry>, group: string, key: string)
    ensures Find(ApplyWanted(groups, wanted), group, key) ==
            if Asked(wanted, group, key).Some? then Asked(wanted, group, key) else Find(groups, group, key)
    decreases |wanted|
  {
    if wanted != [] {
      var w := wanted[0];
      FindSet(groups, w.group, w.key, w.value, group, key);
      ApplyWantedFinds(SetKey(groups, w.group, w.key, w.value), wanted[1..], group, key);
    }
  }

  lemma {:induction false} TakeBackKeeps(groups: seq<Group>, previously: seq<string>, owned: seq<string>)
    requires Sound(groups) && Unique(groups)
    ensures var r := TakeBack(groups, previously, owned); Sound(r) && Unique(r)
    decreases |previously|
  {
    if previously != [] {
      match Doomed(groups, previously[0], owned)
      case None => TakeBackKeeps(groups, previously[1..], owned);
      case Some(gk) =>
        RemoveKeyKeeps(groups, gk.0, gk.1);
        TakeBackKeeps(RemoveKey(groups, gk.0, gk.1), previously[1..], owned);
    }
  }

  lemma {:induction false} TakeBackFinds(groups: seq<Group>, previously: seq<string>, owned: seq<string>,
                                         group: string, key: string)
    requires Sound(groups) && Unique(groups)
    ensures Find(TakeBack(groups, previously, owned), group, key) ==
            if Released(previously, owned, group, key) then None else Find(groups, group, key)
    decreases |previously|
  {
    if previously != [] {
      var id, rest := previously[0], previously[1..];
      assert Released(previously, owned, group, key) <==>
             (id !in owned && SplitId(id) == Some((group, key))) || Released(rest, owned, group, key);
      match Doomed(groups, id, owned)
      case None =>
        PresentIsFound(groups, group, key);
        TakeBackFinds(groups, rest, owned, group, key);
      case Some(gk) =>
        RemoveKeyKeeps(groups, gk.0, gk.1);
        FindRemove(groups, gk.0, gk.1, group, key);
        TakeBackFinds(RemoveKey(groups, gk.0, gk.1), rest, owned, group, key);
    }
  }

  lemma MergedKeeps(live: string, wanted: seq<Entry>, previously: seq<string>)
    requires WellFormed(live) && Legal(wanted)
    ensures Sound(Merged(live, wanted, previously)) && Unique(Merged(live, wanted, previously))
  {
    WellFormedIsSound(live);
    ApplyWantedKeeps(Parse(live), wanted);
    TakeBackKeeps(ApplyWanted(Parse(live), wanted), previously, Ids(wanted));
  }

  // ----- the text after a merge -----

  lemma {:induction false} KeptStaysUnique(groups: seq<Group>)
    requires Unique(groups)
    ensures Unique(KeptOf(groups))
    ensures forall g <- KeptOf(groups) :: g in groups
  {
    if groups != [] {
      UniqueTail(groups);
      KeptStaysUnique(groups[1..]);
      assert forall g <- KeptOf(groups[1..]) :: g.name != groups[0].name;
    }
  }

  lemma KeptUnique(groups: seq<Group>)
    requires Unique(groups) && groups != []
    ensures Unique(Kept(groups))
  {
    UniqueTail(groups);
    KeptStaysUnique(groups[1..]);
    forall g | g in Kept(groups) ensures UniqueKeys(g.lines) {
      assert g in groups;
    }
    forall i, j | 0 <= i < j < |Kept(groups)| ensures Kept(groups)[i].name != Kept(groups)[j].name {
      assert Kept(groups)[j] in groups[1..];
    }
  }

  lemma SaysShows(line: Line)
    requires Says(line)
    ensures !Blank(LineText(line))
  {
    TrimEmptyIffBlank(LineText(line));
    if line.Pair? {
      assert LineText(line)[|line.key|] in LineText(line);
    }
  }

  lemma HeadShows(s: string)
    requires s != "" && !IsSpace(s[0])
    ensures !Blank(s)
  {
    assert s[0] in s;
  }

  /** A file that finishes as nothing said nothing. */
  lemma {:induction false} BlankSaysNothing(lines: seq<Line>, rest: string)
    requires Blank(Unlines(LineTexts(lines)) + rest)
    ensures forall l <- lines :: !Says(l)
    decreases |lines|
  {
    if lines != [] {
      var l, text := lines[0], LineText(lines[0]);
      assert Unlines(LineTexts(lines)) == text + "\n" + Unlines(LineTexts(lines[1..]));
      forall c | c in text ensures IsSpace(c) {
        assert c in Unlines(LineTexts(lines)) + rest;
      }
      if Says(l) {
        SaysShows(l);
      }
      forall c | c in Unlines(LineTexts(lines[1..])) + rest ensures IsSpace(c) {
        assert c in Unlines(LineTexts(lines)) + rest;
      }
      BlankSaysNothing(lines[1..], rest);
    }
  }

  lemma {:induction false} BlankKeepsNothing(groups: seq<Group>)
    requires forall g <- groups :: g.name != ""
    requires Blank(Unlines(EmitAll(groups)))
    ensures KeptOf(groups) == []
  {
    if groups != [] {
      var g := groups[0];
      assert g in groups;
      UnlinesAppend(Emit(g), EmitAll(groups[1..]));
      if Keeps(g) {
        assert Unlines(Emit(g))[0] == '[';
        HeadShows(Unlines(EmitAll(groups)));
      }
      BlankKeepsNothing(groups[1..]);
    }
  }

  lemma FinishedNothing(groups: seq<Group>, group: string, key: string)
    requires Sound(groups) && Unique(groups) && Finish(Render(groups)) == ""
    ensures Find(groups, group, key).None?
    ensures forall touched :: Others(groups, touched) == []
  {
    var top, rest := groups[0], groups[1..];
    TrimEmptyIffBlank(Render(groups));
    UnlinesAppend(Emit(top), EmitAll(rest));
    assert forall c <- Unlines(EmitAll(rest)) :: c in Render(groups);
    BlankKeepsNothing(rest);
    BlankSaysNothing(top.lines, Unlines(EmitAll(rest)));
    NothingSaid(top.lines, key);
    FindKept(groups, group, key);
    assert Kept(groups) == [top];
    assert [top][1..] == [];
    forall touched ensures Others(groups, touched) == [] {
      OthersSilent(top.name, top.lines, touched);
      OthersKeptOf(rest, touched);
      assert Others(groups, touched) == [] + Others(rest, touched);
    }
  }

  lemma ParseEmpty()
    ensures Parse("") == NAMELESS && Unique(Parse("")) && Render(NAMELESS) == ""
    ensures forall g, k :: Find(Parse(""), g, k).None?
    ensures forall touched :: Others(Parse(""), touched) == []
  {
    assert NAMELESS[1..] == [];
    assert Emit(NAMELESS[0]) + EmitAll(NAMELESS[1..]) == [];
  }

  /** What a finished text is read back as. */
  lemma Reread(groups: seq<Group>)
    requires Sound(groups) && Unique(groups)
    ensures var text := Finish(Render(groups));
      && WellFormed(text)
      && (forall g, k :: Find(Parse(text), g, k) == Find(groups, g, k))
      && (forall touched :: Others(Parse(text), touched) == Others(groups, touched))
      && Finish(Render(Parse(text))) == text
  {
    var text := Finish(Render(groups));
    ReparseRendered(groups);
    if text == "" {
      ParseEmpty();
      forall g, k ensures Find(groups, g, k).None? {
        FinishedNothing(groups, g, k);
      }
      FinishedNothing(groups, "", "");
    } else {
      KeptUnique(groups);
      RenderKept(groups);
      forall g, k ensures Find(Parse(text), g, k) == Find(groups, g, k) {
        FindKept(groups, g, k);
      }
      forall touched ensures Others(Parse(text), touched) == Others(groups, touched) {
        OthersKeptOf(groups[1..], touched);
        OthersCons(groups[0], KeptOf(groups[1..]), touched);
        OthersCons(groups[0], groups[1..], touched);
        assert [groups[0]] + groups[1..] == groups;
      }
    }
  }

  // ----- the theorems -----

  /** After a merge every key asked for holds its value, every key released is
      gone, and every other key holds what it held. */
  lemma ConvergeDecidesKeys(live: string, wanted: seq<Entry>, previously: seq<string>,
                            group: string, key: string)
    requires WellFormed(live) && Legal(wanted)
    ensures var out := Converge(live, wanted, previously).text;
      && WellFormed(out)
      && Find(Parse(out), group, key) ==
         (if Asked(wanted, group, key).Some? then Asked(wanted, group, key)
          else if Released(previously, Ids(wanted), group, key) then None
          else Find(Parse(live), group, key))
  {
    MergedKeeps(live, wanted, previously);
    Reread(Merged(live, wanted, previously));
    WellFormedIsSound(live);
    ApplyWantedKeeps(Parse(live), wanted);
    ApplyWantedFinds(Parse(live), wanted, group, key);
    TakeBackFinds(ApplyWanted(Parse(live), wanted), previously, Ids(wanted), group, key);
    if Asked(wanted, group, key).Some? && Released(previously, Ids(wanted), group, key) {
      var id :| id in previously && id !in Ids(wanted) && SplitId(id) == Some((group, key));
      SplitIdIsId(id);
      AskedIsOwned(wanted, group, key);
    }
  }

  lemma {:induction false} AskedIsOwned(wanted: seq<Entry>, group: string, key: string)
    ensures Asked(wanted, group, key).Some? ==> OwnedId(group, key) in Ids(wanted)
  {
    if wanted != [] {
      AskedIsOwned(wanted[1..], group, key);
    }
  }

  /** The keys a merge may touch. */
  function Touched(wanted: seq<Entry>, previously: seq<string>): set<(string, string)> {
    (set w | w in wanted :: (w.group, w.key)) +
    (set id | id in previously && SplitId(id).Some? :: SplitId(id).value)
  }

  lemma {:induction false} OthersApplyWanted(groups: seq<Group>, wanted: seq<Entry>,
                                             touched: set<(string, string)>)
    requires forall w <- wanted :: (w.group, w.key) in touched
    ensures Others(ApplyWanted(groups, wanted), touched) == Others(groups, touched)
    decreases |wanted|
  {
    if wanted != [] {
      var w := wanted[0];
      assert w in wanted;
      OthersSet(groups, w.group, w.key, w.value, touched);
      OthersApplyWanted(SetKey(groups, w.group, w.key, w.value), wanted[1..], touched);
    }
  }

  lemma {:induction false} OthersTakeBack(groups: seq<Group>, previously: seq<string>, owned: seq<string>,
                                          touched: set<(string, string)>)
    requires forall id <- previously :: SplitId(id).Some? ==> SplitId(id).value in touched
    ensures Others(TakeBack(groups, previously, owned), touched) == Others(groups, touched)
    decreases |previously|
  {
    if previously != [] {
      assert previously[0] in previously;
      match Doomed(groups, previously[0], owned)
      case None => OthersTakeBack(groups, previously[1..], owned, touched);
      case Some(gk) =>
        OthersRemove(groups, gk.0, gk.1, touched);
        OthersTakeBack(RemoveKey(groups, gk.0, gk.1), previously[1..], owned, touched);
    }
  }

  /** The frame: every pair the merge has no authority over, and every comment
      or unknown line, is in the new text, in the same group and order. */
  lemma ConvergeFrame(live: string, wanted: seq<Entry>, previously: seq<string>)
    requires WellFormed(live) && Legal(wanted)
    ensures var touched := Touched(wanted, previously);
      Others(Parse(Converge(live, wanted, previously).text), touched) == Others(Parse(live), touched)
  {
    var touched := Touched(wanted, previously);
    MergedKeeps(live, wanted, previously);
    Reread(Merged(live, wanted, previously));
    OthersApplyWanted(Parse(live), wanted, touched);
    OthersTakeBack(ApplyWanted(Parse(live), wanted), previously, Ids(wanted), touched);
  }

  lemma {:induction false} DistinctAsked(wanted: seq<Entry>, i: nat)
    requires Distinct(wanted) && i < |wanted|
    ensures Asked(wanted, wanted[i].group, wanted[i].key) == Some(wanted[i].value)
  {
    if i == 0 {
      NotAsked(wanted[1..], wanted[0].group, wanted[0].key);
    } else {
      assert Distinct(wanted[1..]);
      DistinctAsked(wanted[1..], i - 1);
    }
  }

  lemma {:induction false} NotAsked(wanted: seq<Entry>, group: string, key: string)
    requires forall w <- wanted :: !(w.group == group && w.key == key)
    ensures Asked(wanted, group, key).None?
  {
    if wanted != [] {
      assert wanted[0] in wanted;
      NotAsked(wanted[1..], group, key);
    }
  }

  lemma {:induction false} WantedInPlace(groups: seq<Group>, wanted: seq<Entry>)
    requires forall w <- wanted :: Find(groups, w.group, w.key) == Some(w.value)
    ensures ApplyWanted(groups, wanted) == groups && Written(groups, wanted) == []
    decreases |wanted|
  {
    if wanted != [] {
      var w := wanted[0];
      assert w in wanted;
      SetKeyNoop(groups, w.group, w.key, w.value);
      WantedInPlace(groups, wanted[1..]);
    }
  }

  lemma {:induction false} NothingReleased(groups: seq<Group>, previously: seq<string>, owned: seq<string>)
    requires forall id <- previously :: id in owned
    ensures TakeBack(groups, previously, owned) == groups && TakenBack(groups, previously, owned) == []
    decreases |previously|
  {
    if previously != [] {
      assert previously[0] in previously;
      NothingReleased(groups, previously[1..], owned);
    }
  }

  /** A second merge of the same declaration writes the same text, reports
      nothing and owns the same keys. */
  lemma ConvergeIsIdempotent(live: string, wanted: seq<Entry>, previously: seq<string>)
    requires WellFormed(live) && Legal(wanted) && Distinct(wanted)
    ensures var first := Converge(live, wanted, previously);
      Converge(first.text, wanted, first.owned) == Outcome(first.text, Changed([], []), first.owned)
  {
    var first := Converge(live, wanted, previously);
    var groups := Parse(first.text);
    forall w | w in wanted ensures Find(groups, w.group, w.key) == Some(w.value) {
      var i :| 0 <= i < |wanted| && wanted[i] == w;
      DistinctAsked(wanted, i);
      ConvergeDecidesKeys(live, wanted, previously, w.group, w.key);
    }
    WantedInPlace(groups, wanted);
    NothingReleased(groups, first.owned, first.owned);
    MergedKeeps(live, wanted, previously);
    Reread(Merged(live, wanted, previously));
  }

  // ----- what a merge reports -----

  /** The ids of the entries the live file does not already hold. */
  function Missing(groups: seq<Group>, wanted: seq<Entry>): seq<string> {
    if wanted == [] then []
    else
      var w := wanted[0];
      (if Find(groups, w.group, w.key) != Some(w.value) then [OwnedId(w.group, w.key)] else []) +
      Missing(groups, wanted[1..])
  }

  /** The ids once owned, no longer declared and still in the live file. */
  function Leftover(groups: seq<Group>, previously: seq<string>, owned: seq<string>): seq<string> {
    if previously == [] then []
    else
      var id := previously[0];
      (if id !in owned && SplitId(id).Some? && Find(groups, SplitId(id).value.0, SplitId(id).value.1).Some?
       then [id] else []) +
      Leftover(groups, previously[1..], owned)
  }

  lemma {:induction false} MissingAgrees(a: seq<Group>, b: seq<Group>, wanted: seq<Entry>)
    requires forall w <- wanted :: Find(a, w.group, w.key) == Find(b, w.group, w.key)
    ensures Missing(a, wanted) == Missing(b, wanted)
  {
    if wanted != [] {
      assert wanted[0] in wanted;
      MissingAgrees(a, b, wanted[1..]);
    }
  }

  lemma {:induction false} WrittenIsMissing(groups: seq<Group>, wanted: seq<Entry>)
    requires Distinct(wanted)
    ensures Written(groups, wanted) == Missing(groups, wanted)
    decreases |wanted|
  {
    if wanted != [] {
      var w, rest := wanted[0], wanted[1..];
      var next := SetKey(groups, w.group, w.key, w.value);
      forall u | u in rest ensures Find(next, u.group, u.key) == Find(groups, u.group, u.key) {
        FindSet(groups, w.group, w.key, w.value, u.group, u.key);
      }
      assert Distinct(rest);
      WrittenIsMissing(next, rest);
      MissingAgrees(next, groups, rest);
    }
  }

  lemma {:induction false} LeftoverAgrees(a: seq<Group>, b: seq<Group>, previously: seq<string>, owned: seq<string>)
    requires forall id <- previously :: id !in owned && SplitId(id).Some? ==>
      Find(a, SplitId(id).value.0, SplitId(id).value.1) == Find(b, SplitId(id).value.0, SplitId(id).value.1)
    ensures Leftover(a, previously, owned) == Leftover(b, previously, owned)
  {
    if previously != [] {
      assert previously[0] in previously;
      LeftoverAgrees(a, b, previously[1..], owned);
    }
  }

  lemma {:induction false} TakenBackIsLeftover(groups: seq<Group>, previously: seq<string>, owned: seq<string>)
    requires Sound(groups) && Unique(groups) && NoDuplicates(previously)
    ensures TakenBack(groups, previously, owned) == Leftover(groups, previously, owned)
    decreases |previously|
  {
    if previously != [] {
      var id, rest := previously[0], previously[1..];
      if SplitId(id).Some? {
        PresentIsFound(groups, SplitId(id).value.0, SplitId(id).value.1);
      }
      match Doomed(groups, id, owned)
      case None => TakenBackIsLeftover(groups, rest, owned);
      case Some(gk) =>
        var next := RemoveKey(groups, gk.0, gk.1);
        RemoveKeyKeeps(groups, gk.0, gk.1);
        TakenBackIsLeftover(next, rest, owned);
        forall u | u in rest && u !in owned && SplitId(u).Some?
          ensures Find(next, SplitId(u).value.0, SplitId(u).value.1) ==
                  Find(groups, SplitId(u).value.0, SplitId(u).value.1)
        {
          SplitIdIsId(u);
          SplitIdIsId(id);
          FindRemove(groups, gk.0, gk.1, SplitId(u).value.0, SplitId(u).value.1);
        }
        LeftoverAgrees(next, groups, rest, owned);
    }
  }

  /** The report is a comparison of the declaration and the record with the
      file as it was found, in declaration and record order. */
  lemma ConvergeReports(live: string, wanted: seq<Entry>, previously: seq<string>)
    requires WellFormed(live) && Legal(wanted) && Distinct(wanted) && NoDuplicates(previously)
    ensures Converge(live, wanted, previously).changed ==
            Changed(Missing(Parse(live), wanted), Leftover(Parse(live), previously, Ids(wanted)))
  {
    var groups := Parse(live);
    var next := ApplyWanted(groups, wanted);
    WellFormedIsSound(live);
    WrittenIsMissing(groups, wanted);
    ApplyWantedKeeps(groups, wanted);
    TakenBackIsLeftover(next, previously, Ids(wanted));
    forall u | u in previously && u !in Ids(wanted) && SplitId(u).Some?
      ensures Find(next, SplitId(u).value.0, SplitId(u).value.1) ==
              Find(groups, SplitId(u).value.0, SplitId(u).value.1)
    {
      SplitIdIsId(u);
      AskedIsOwned(wanted, SplitId(u).value.0, SplitId(u).value.1);
      ApplyWantedFinds(groups, wanted, SplitId(u).value.0, SplitId(u).value.1);
    }
    LeftoverAgrees(next, groups, previously, Ids(wanted));
  }

}
