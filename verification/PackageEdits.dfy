/** Day-two edits of the package lists (`src/edit.rs`): `add`, `declare` and
    `remove` on the declaration, stored only when it still validates. */
module PackageEdits {
  import opened Text
  import opened Declaration

  datatype List = Rpm | Flatpak | Brew

  datatype Packages = Packages(rpm: seq<string>, flatpak: seq<string>, brew: seq<string>)

  datatype Item = Item(list: List, name: string)

  function Names(p: Packages, list: List): seq<string> {
    match list
    case Rpm => p.rpm
    case Flatpak => p.flatpak
    case Brew => p.brew
  }

  function WithNames(p: Packages, list: List, names: seq<string>): Packages {
    match list
    case Rpm => p.(rpm := names)
    case Flatpak => p.(flatpak := names)
    case Brew => p.(brew := names)
  }

  const RPM_CHARS := {'.', '-', '_', '+', ':'}
  const FLATPAK_CHARS := {'.', '-', '_'}
  const BREW_CHARS := {'.', '-', '_', '+', '@', '/'}

  /** What `validate` asks of the lists. */
  predicate Storable(p: Packages) {
    && (forall n <- p.rpm :: ValidName(n, RPM_CHARS))
    && (forall n <- p.flatpak :: ValidName(n, FLATPAK_CHARS))
    && (forall n <- p.brew :: ValidName(n, BREW_CHARS))
  }

  const APP_CHARS := {'.', '-', '_'}

  /** And of the override tables. */
  predicate ValidTables(overrides: map<string, AppOverride>) {
    forall app <- overrides :: ValidName(app, APP_CHARS) && Valid(overrides[app])
  }

  /** What a stored name may be made of, list by list. */
  function CharsOf(list: List): set<char> {
    match list
    case Rpm => {'.', '-', '_', '+', ':'}
    case Flatpak => {'.', '-', '_'}
    case Brew => {'.', '-', '_', '+', '@', '/'}
  }

  predicate IsPlainName(n: string, extra: set<char>) {
    && n != "" && n[0] != '-' && (exists i :: 0 <= i < |n| && IsAlnum(n[i]))
    && forall i | 0 <= i < |n| :: IsAlnum(n[i]) || n[i] in extra
  }

  lemma NameMeans(n: string, extra: set<char>)
    ensures ValidName(n, extra) <==> IsPlainName(n, extra)
  {
    if ValidName(n, extra) {
      var c :| c in n && IsAlnum(c);
      var i :| 0 <= i < |n| && n[i] == c;
    }
    if IsPlainName(n, extra) {
      var i :| 0 <= i < |n| && IsAlnum(n[i]);
      assert n[i] in n;
    }
  }

  /** The file is stored only with names of the right letters in every list. */
  lemma StorableMeans(p: Packages)
    ensures Storable(p) <==> forall list, n | n in Names(p, list) :: IsPlainName(n, CharsOf(list))
  {
    assert RPM_CHARS == CharsOf(Rpm) && FLATPAK_CHARS == CharsOf(Flatpak) && BREW_CHARS == CharsOf(Brew);
    forall n, extra ensures ValidName(n, extra) <==> IsPlainName(n, extra) {
      NameMeans(n, extra);
    }
    if forall list, n | n in Names(p, list) :: IsPlainName(n, CharsOf(list)) {
      assert forall n <- p.rpm :: n in Names(p, Rpm);
      assert forall n <- p.flatpak :: n in Names(p, Flatpak);
      assert forall n <- p.brew :: n in Names(p, Brew);
    }
  }

  // ----- declaring -----

  function DeclareOne(p: Packages, item: Item): Packages {
    if item.name in Names(p, item.list) then p
    else WithNames(p, item.list, Names(p, item.list) + [item.name])
  }

  function Declared(p: Packages, items: seq<Item>): Packages
    decreases |items|
  {
    if items == [] then p else Declared(DeclareOne(p, items[0]), items[1..])
  }

  function InList(list: List, names: seq<string>): seq<Item> {
    if names == [] then [] else [Item(list, names[0])] + InList(list, names[1..])
  }

  // ----- removing -----

  /** The list a name is found in, in the order they are asked. */
  function FoundIn(p: Packages, name: string): Option<List> {
    if name in p.rpm then Some(Rpm)
    else if name in p.flatpak then Some(Flatpak)
    else if name in p.brew then Some(Brew)
    else None
  }

  function RemoveFirst(names: seq<string>, name: string): seq<string> {
    if names == [] then []
    else if names[0] == name then names[1..]
    else [names[0]] + RemoveFirst(names[1..], name)
  }

  function RemoveOne(p: Packages, name: string): Option<Packages> {
    match FoundIn(p, name)
    case Some(list) => Some(WithNames(p, list, RemoveFirst(Names(p, list), name)))
    case None => None
  }

  /** All or nothing. */
  function Removed(p: Packages, names: seq<string>): Option<Packages>
    decreases |names|
  {
    if names == [] then Some(p)
    else
      match RemoveOne(p, names[0])
      case Some(q) => Removed(q, names[1..])
      case None => None
  }

  /** kuma.toml, as far as its package lists and override tables go. */
  class DeclarationFile {
    var packages: Packages
    var overrides: map<string, AppOverride>

    constructor (packages: Packages, overrides: map<string, AppOverride>)
      ensures this.packages == packages && this.overrides == overrides
    {
      this.packages, this.overrides := packages, overrides;
    }

    method Declare(items: seq<Item>) returns (stored: bool)
      modifies this`packages
      ensures stored == (Storable(Declared(old(packages), items)) && ValidTables(overrides))
      ensures packages == if stored then Declared(old(packages), items) else old(packages)
    {
      var doc := packages;
      for i := 0 to |items|
        invariant packages == old(packages)
        invariant Declared(doc, items[i..]) == Declared(packages, items)
      {
        assert items[i..][0] == items[i] && items[i..][1..] == items[i + 1..];
        var names := Names(doc, items[i].list);
        if items[i].name !in names {
          doc := WithNames(doc, items[i].list, names + [items[i].name]);
        }
      }
      stored := Storable(doc) && ValidTables(overrides);
      if stored {
        packages := doc;
      }
    }

    /** The names that were new and those that were there, and whether the file
        was written. A flatpak nobody lists refuses them all before anything is
        read; nothing new stores nothing. */
    method Add(list: List, names: seq<string>, known: Option<seq<string>>)
      returns (refused: bool, stored: bool, added: seq<string>, already: seq<string>)
      modifies this`packages
      ensures refused <==> list == Flatpak && known.Some? && exists n <- names :: n !in known.value
      ensures !refused ==> added == New(Names(old(packages), list), names)
      ensures !refused ==> already == Known(Names(old(packages), list), names)
      ensures !refused ==> Declared(old(packages), InList(list, names))
                           == WithNames(old(packages), list, Names(old(packages), list) + added)
      ensures stored == (!refused && added != [] && ValidTables(overrides)
                         && Storable(Declared(old(packages), InList(list, names))))
      ensures packages == if stored then Declared(old(packages), InList(list, names)) else old(packages)
    {
      if list == Flatpak && known.Some? {
        for i := 0 to |names|
          invariant packages == old(packages)
          invariant forall k | 0 <= k < i :: names[k] in known.value
        {
          if names[i] !in known.value {
            assert names[i] in names;
            return true, false, [], [];
          }
        }
      }
      refused := false;
      var doc := Names(packages, list);
      added, already := [], [];
      for i := 0 to |names|
        invariant packages == old(packages)
        invariant doc == Names(packages, list) + added
        invariant added + New(doc, names[i..]) == New(Names(packages, list), names)
        invariant already + Known(doc, names[i..]) == Known(Names(packages, list), names)
      {
        assert names[i..][0] == names[i] && names[i..][1..] == names[i + 1..];
        var name := names[i];
        if name in doc {
          SeqAssociative(already, [name], Known(doc, names[i + 1..]));
          already := already + [name];
        } else {
          SeqAssociative(added, [name], New(doc + [name], names[i + 1..]));
          doc := doc + [name];
          added := added + [name];
        }
      }
      DeclaredInList(packages, list, names);
      stored := added != [] && Storable(WithNames(packages, list, doc)) && ValidTables(overrides);
      if stored {
        packages := WithNames(packages, list, doc);
      }
    }

    method Remove(names: seq<string>) returns (stored: bool)
      modifies this`packages
      ensures stored <==> Removed(old(packages), names).Some?
                          && Storable(Removed(old(packages), names).value) && ValidTables(overrides)
      ensures packages == if stored then Removed(old(packages), names).value else old(packages)
    {
      var doc := packages;
      for i := 0 to |names|
        invariant packages == old(packages)
        invariant Removed(doc, names[i..]) == Removed(packages, names)
      {
        assert names[i..][0] == names[i] && names[i..][1..] == names[i + 1..];
        var list := FoundIn(doc, names[i]);
        if list.None? {
          return false;
        }
        doc := WithNames(doc, list.value, RemoveFirst(Names(doc, list.value), names[i]));
      }
      stored := Storable(doc) && ValidTables(overrides);
      if stored {
        packages := doc;
      }
    }
  }

  function New(known: seq<string>, names: seq<string>): seq<string>
    decreases |names|
  {
    if names == [] then []
    else if names[0] in known then New(known, names[1..])
    else [names[0]] + New(known + [names[0]], names[1..])
  }

  function Known(known: seq<string>, names: seq<string>): seq<string>
    decreases |names|
  {
    if names == [] then []
    else if names[0] in known then [names[0]] + Known(known, names[1..])
    else Known(known + [names[0]], names[1..])
  }

  /** Every name given is either new, and then told once, or was there already,
      in the file or earlier in the call. */
  lemma {:induction false} NewOrKnown(known: seq<string>, names: seq<string>)
    ensures multiset(New(known, names)) + multiset(Known(known, names)) == multiset(names)
    ensures forall n :: n in New(known, names) <==> n in names && n !in known
    ensures NoDuplicates(New(known, names))
    decreases |names|
  {
    NewIs(known, names);
    if names != [] {
      NewOrKnown(if names[0] in known then known else known + [names[0]], names[1..]);
      assert names == [names[0]] + names[1..];
    }
  }

  lemma {:induction false} NewIs(known: seq<string>, names: seq<string>)
    ensures forall n :: n in New(known, names) <==> n in names && n !in known
    ensures NoDuplicates(New(known, names))
    decreases |names|
  {
    if names != [] {
      var later := if names[0] in known then known else known + [names[0]];
      NewIs(later, names[1..]);
      assert names == [names[0]] + names[1..];
      if names[0] !in known {
        OneMoreName(names[0], New(later, names[1..]));
      }
    }
  }

  lemma OneMoreName(name: string, names: seq<string>)
    requires NoDuplicates(names) && name !in names
    ensures NoDuplicates([name] + names)
  {}

  // ----- what declaring does -----

  lemma {:induction false} DeclaredInList(p: Packages, list: List, names: seq<string>)
    ensures Declared(p, InList(list, names)) == WithNames(p, list, Names(p, list) + New(Names(p, list), names))
    decreases |names|
  {
    var known := Names(p, list);
    if names == [] {
      assert known + [] == known;
    } else {
      var q := DeclareOne(p, Item(list, names[0]));
      DeclaredInList(q, list, names[1..]);
      assert InList(list, names)[1..] == InList(list, names[1..]);
      if names[0] !in known {
        SeqAssociative(known, [names[0]], New(known + [names[0]], names[1..]));
      }
    }
  }

  /** Declaring adds what it is told, once, at the end of its list, and loses
      nothing. */
  lemma {:induction false} DeclaredHolds(p: Packages, items: seq<Item>, list: List)
    ensures Names(p, list) <= Names(Declared(p, items), list)
    ensures forall name ::
              name in Names(Declared(p, items), list) <==> name in Names(p, list) || Item(list, name) in items
    ensures NoDuplicates(Names(p, list)) ==> NoDuplicates(Names(Declared(p, items), list))
    decreases |items|
  {
    if items != [] {
      DeclaredHolds(DeclareOne(p, items[0]), items[1..], list);
      assert items == [items[0]] + items[1..];
    }
  }

  // ----- remove undoes add -----

  /** The lists asked before this one and this one itself. */
  predicate InListsUpTo(p: Packages, list: List, name: string) {
    || name in p.rpm
    || (!list.Rpm? && name in p.flatpak)
    || (list.Brew? && name in p.brew)
  }

  /** The names are new to every list where `remove` would find them. */
  predicate AllNew(p: Packages, list: List, names: seq<string>) {
    NoDuplicates(names) && forall n <- names :: !InListsUpTo(p, list, n)
  }

  lemma {:induction false} RemoveFirstOf(before: seq<string>, name: string, after: seq<string>)
    requires name !in before
    ensures RemoveFirst(before + [name] + after, name) == before + after
  {
    if before == [] {
      assert (before + [name] + after)[1..] == after && before + after == after;
    } else {
      assert before[0] in before;
      assert (before + [name] + after)[1..] == before[1..] + [name] + after;
      RemoveFirstOf(before[1..], name, after);
      assert before + after == [before[0]] + (before[1..] + after);
    }
  }

  lemma {:induction false} RemovedAfter(p: Packages, list: List, names: seq<string>)
    requires AllNew(p, list, names)
    ensures Removed(WithNames(p, list, Names(p, list) + names), names) == Some(p)
    decreases |names|
  {
    var known := Names(p, list);
    if names == [] {
      assert known + names == known;
    } else {
      assert names[0] in names;
      assert known + names == known + [names[0]] + names[1..];
      RemoveFirstOf(known, names[0], names[1..]);
      RemovedAfter(p, list, names[1..]);
    }
  }

  lemma {:induction false} NewOfAllNew(known: seq<string>, names: seq<string>)
    ensures New(known, names) == names <==> NoDuplicates(names) && forall n <- names :: n !in known
    ensures |New(known, names)| <= |names|
    ensures |New(known, names)| == |names| <==> New(known, names) == names
    decreases |names|
  {
    if names != [] {
      var later := if names[0] in known then known else known + [names[0]];
      NewOfAllNew(later, names[1..]);
      assert names == [names[0]] + names[1..];
      if names[0] !in known {
        assert NoDuplicates(names) <==> NoDuplicates(names[1..]) && names[0] !in names[1..];
      }
    }
  }

  lemma {:induction false} RemoveFirstCounts(names: seq<string>, name: string)
    requires name in names
    ensures |RemoveFirst(names, name)| == |names| - 1
    ensures forall n :: n in RemoveFirst(names, name) ==> n in names
  {
    if names[0] != name {
      RemoveFirstCounts(names[1..], name);
    }
  }

  lemma {:induction false} RemovedCounts(p: Packages, names: seq<string>)
    requires Removed(p, names).Some?
    ensures var q := Removed(p, names).value;
      && |q.rpm| + |q.flatpak| + |q.brew| + |names| == |p.rpm| + |p.flatpak| + |p.brew|
      && |q.rpm| <= |p.rpm| && |q.flatpak| <= |p.flatpak| && |q.brew| <= |p.brew|
    decreases |names|
  {
    if names != [] {
      var list := FoundIn(p, names[0]).value;
      RemoveFirstCounts(Names(p, list), names[0]);
      RemovedCounts(RemoveOne(p, names[0]).value, names[1..]);
    }
  }

  lemma FoundStays(p: Packages, list: List, gone: string, n: string)
    requires FoundIn(p, gone) == Some(list) && FoundIn(RemoveOne(p, gone).value, n) == Some(list)
    ensures FoundIn(p, n) == Some(list)
  {
    RemoveFirstCounts(Names(p, list), gone);
  }

  /** Each removed name came out of the list that lost it. */
  lemma {:induction false} RemovedFrom(p: Packages, list: List, names: seq<string>)
    requires Removed(p, names).Some?
    requires forall l | l != list :: |Names(Removed(p, names).value, l)| == |Names(p, l)|
    ensures forall n <- names :: FoundIn(p, n) == Some(list)
    decreases |names|
  {
    if names != [] {
      var found := FoundIn(p, names[0]).value;
      var q := RemoveOne(p, names[0]).value;
      RemoveFirstCounts(Names(p, found), names[0]);
      RemovedCounts(q, names[1..]);
      assert |Names(q, found)| < |Names(p, found)| && |Names(Removed(p, names).value, found)| <= |Names(q, found)|;
      assert found == list;
      RemovedFrom(q, list, names[1..]);
      forall n | n in names ensures FoundIn(p, n) == Some(list) {
        if n != names[0] {
          assert n in names[1..];
          FoundStays(p, list, names[0], n);
        }
      }
    }
  }

  lemma UndoneWasNew(p: Packages, list: List, names: seq<string>)
    requires Removed(Declared(p, InList(list, names)), names) == Some(p)
    ensures AllNew(p, list, names)
  {
    var known := Names(p, list);
    DeclaredInList(p, list, names);
    NewOfAllNew(known, names);
    var q := WithNames(p, list, known + New(known, names));
    RemovedCounts(q, names);
    RemovedFrom(q, list, names);
    forall n | n in names ensures !InListsUpTo(p, list, n) {
      assert FoundIn(q, n) == Some(list);
    }
  }

  /** Removing what was just added leaves the declaration as it was, exactly
      when the names were new: to their list, and to those asked before it. */
  lemma RemoveUndoesAdd(p: Packages, list: List, names: seq<string>)
    ensures Removed(Declared(p, InList(list, names)), names) == Some(p) <==> AllNew(p, list, names)
  {
    if AllNew(p, list, names) {
      DeclaredInList(p, list, names);
      assert forall n <- names :: InListsUpTo(p, list, n) || n !in Names(p, list);
      NewOfAllNew(Names(p, list), names);
      RemovedAfter(p, list, names);
    } else if Removed(Declared(p, InList(list, names)), names) == Some(p) {
      UndoneWasNew(p, list, names);
    }
  }
}
