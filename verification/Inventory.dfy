/** What the machine was observed to have (`src/inventory.rs`). */
module Inventory {
  import opened Text
  import opened Order
  import opened PackageEdits

  datatype Machine = Machine(
    flatpakSystem: Option<set<string>>,
    flatpakUser: set<string>,
    flatpakState: set<string>,
    brewInstalled: Option<set<string>>,
    brewLeaves: set<string>,
    brewState: set<string>)

  /** Convergence takes back what it put there and nobody declares. */
  predicate ConvergenceRemoves(m: Machine, list: List, name: string, declared: seq<string>) {
    name in (if list == Brew then m.brewState else m.flatpakState) && name !in declared
  }

  /** A tapped formula goes by its last segment. */
  function Short(name: string): string { AfterLastSlash(name) }

  /** The last segment: the whole name, or what follows its last slash. */
  lemma ShortMeans(name: string, last: string)
    ensures Short(name) == last <==>
      '/' !in last && exists tap :: name == tap + last && (tap == "" || EndsWith(tap, "/"))
  {
    if Short(name) == last {
      var tap := LastSegment(name);
    }
    if tap :| '/' !in last && name == tap + last && (tap == "" || EndsWith(tap, "/")) {
      SegmentOf(tap, last);
    }
  }

  lemma {:induction false} LastSegment(name: string) returns (tap: string)
    ensures name == tap + AfterLastSlash(name) && '/' !in AfterLastSlash(name)
    ensures tap == "" || EndsWith(tap, "/")
  {
    if name == "" || name[|name| - 1] == '/' {
      tap := name;
      assert name != "" ==> name[|name| - 1..] == "/";
    } else {
      var n := |name| - 1;
      tap := LastSegment(name[..n]);
      SeqAssociative(tap, AfterLastSlash(name[..n]), [name[n]]);
      assert name == name[..n] + [name[n]];
    }
  }

  lemma {:induction false} SegmentOf(tap: string, last: string)
    requires '/' !in last && (tap == "" || EndsWith(tap, "/"))
    ensures AfterLastSlash(tap + last) == last
  {
    if last == "" {
      assert tap + last == tap;
      assert tap != "" ==> tap[|tap| - 1] == tap[|tap| - 1..][0];
    } else {
      var n, s := |last| - 1, tap + last;
      assert s[..|s| - 1] == tap + last[..n] && s[|s| - 1] == last[n];
      SegmentOf(tap, last[..n]);
    }
  }

  // ----- leaves -----

  /** One version of a formula: the receipt cannot be listed, cannot be read,
      says something unknown, or names what it depends on. */
  datatype Receipt = Unlisted | Unreadable | Malformed | Depends(names: seq<string>)

  /** The receipts of each formula; `None` where they cannot be listed. */
  type Cellar = map<string, Option<seq<Receipt>>>

  predicate AllTrusted(receipts: seq<Receipt>) { forall r <- receipts :: !r.Unlisted? && !r.Malformed? }

  predicate SomeRead(receipts: seq<Receipt>) { exists r <- receipts :: r.Depends? }

  predicate Trusted(cellar: Cellar, name: string) {
    name in cellar && cellar[name].Some? && AllTrusted(cellar[name].value) && SomeRead(cellar[name].value)
  }

  predicate NamesDependency(receipts: seq<Receipt>, dep: string) {
    exists r <- receipts :: r.Depends? && exists n <- r.names :: Short(n) == dep
  }

  predicate DependsOn(cellar: Cellar, name: string, dep: string) {
    name in cellar && cellar[name].Some? && NamesDependency(cellar[name].value, dep)
  }

  predicate Needed(cellar: Cellar, installed: set<string>, dep: string) {
    exists name <- installed :: DependsOn(cellar, name, dep)
  }

  method CollectReceipts(receipts: seq<Receipt>, before: set<string>) returns (trusted: bool, needed: set<string>)
    ensures trusted <==> AllTrusted(receipts) && SomeRead(receipts)
    ensures trusted ==> forall dep :: dep in needed <==> dep in before || NamesDependency(receipts, dep)
  {
    needed := before;
    var readOne := false;
    for i := 0 to |receipts|
      invariant AllTrusted(receipts[..i]) && (readOne <==> SomeRead(receipts[..i]))
      invariant forall dep :: dep in needed <==> dep in before || NamesDependency(receipts[..i], dep)
    {
      var r := receipts[i];
      assert receipts[..i + 1] == receipts[..i] + [r];
      if r.Unreadable? {
        assert forall dep :: NamesDependency(receipts[..i + 1], dep) <==> NamesDependency(receipts[..i], dep);
        continue;
      }
      if r.Unlisted? || r.Malformed? {
        assert r in receipts;
        return false, {};
      }
      ghost var known := needed;
      for j := 0 to |r.names|
        invariant forall dep :: dep in needed <==> dep in known || exists k | 0 <= k < j :: Short(r.names[k]) == dep
      {
        needed := needed + {Short(r.names[j])};
      }
      forall dep ensures NamesDependency(receipts[..i + 1], dep) <==>
          NamesDependency(receipts[..i], dep) || exists n <- r.names :: Short(n) == dep
      {
        DependencySnoc(receipts[..i], r, dep);
      }
      readOne := true;
    }
    assert receipts[..|receipts|] == receipts;
    trusted := readOne;
  }

  lemma DependencySnoc(receipts: seq<Receipt>, r: Receipt, dep: string)
    ensures NamesDependency(receipts + [r], dep) <==>
              NamesDependency(receipts, dep) || (r.Depends? && exists n <- r.names :: Short(n) == dep)
  {
    assert forall q :: q in receipts + [r] <==> q in receipts || q == r;
  }

  /** The installed formulae nothing installed depends on, or no answer when
      any receipt cannot be trusted. */
  method LeavesFromReceipts(cellar: Cellar, installed: set<string>) returns (leaves: Option<set<string>>)
    ensures leaves.Some? <==> forall name <- installed :: Trusted(cellar, name)
    ensures leaves.Some? ==> forall f :: f in leaves.value <==> f in installed && !Needed(cellar, installed, f)
  {
    var needed: set<string> := {};
    var names := Sorted(installed);
    for i := 0 to |names|
      invariant forall k | 0 <= k < i :: Trusted(cellar, names[k])
      invariant forall dep :: dep in needed <==> exists k :: 0 <= k < i && DependsOn(cellar, names[k], dep)
    {
      if names[i] !in cellar || cellar[names[i]].None? {
        assert names[i] in installed && !Trusted(cellar, names[i]);
        return None;
      }
      var trusted;
      trusted, needed := CollectReceipts(cellar[names[i]].value, needed);
      if !trusted {
        assert names[i] in installed && !Trusted(cellar, names[i]);
        return None;
      }
    }
    leaves := Some(installed - needed);
  }
}
