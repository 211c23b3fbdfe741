/** What setting and removing one key does to a keyfile, and what it leaves. */
module KeyFileEdits {
  import opened Text
  import opened KeyFiles

  // ----- what an edit does to a lookup -----

  lemma {:induction false} FindLineSet(lines: seq<Line>, key: string, value: string, other: string)
    ensures FindLine(SetLine(lines, key, value), other) ==
            if other == key then Some(value) else FindLine(lines, other)
  {
    if lines != [] {
      FindLineSet(lines[1..], key, value, other);
    }
  }

  lemma {:induction false} FindSet(groups: seq<Group>, group: string, key: string, value: string,
                                   g: string, k: string)
    ensures Find(SetKey(groups, group, key, value), g, k) ==
            if g == group && k == key then Some(value) else Find(groups, g, k)
  {
    if groups == [] {
      var only := [Pair(key, value)];
      assert only[1..] == [] && FindLine(only, k) == if k == key then Some(value) else None;
      var r := [Group(group, only)];
      assert r[1..] == [] && SetKey(groups, group, key, value) == r;
    } else {
      FindLineSet(groups[0].lines, key, value, k);
      FindSet(groups[1..], group, key, value, g, k);
    }
  }

  lemma {:induction false} FindLineDrop(lines: seq<Line>, key: string, other: string)
    ensures FindLine(DropLine(lines, key), other) == if other == key then None else FindLine(lines, other)
  {
    if lines != [] {
      FindLineDrop(lines[1..], key, other);
    }
  }

  lemma {:induction false} FindRemove(groups: seq<Group>, group: string, key: string, g: string, k: string)
    ensures Find(RemoveKey(groups, group, key), g, k) ==
            if g == group && k == key then None else Find(groups, g, k)
  {
    if groups != [] {
      FindLineDrop(groups[0].lines, key, k);
      FindRemove(groups[1..], group, key, g, k);
    }
  }

  /** With group names that do not repeat, any group holding the key is the
      first group of its name. */
  lemma {:induction false} PresentIsFound(groups: seq<Group>, group: string, key: string)
    requires Unique(groups)
    ensures Present(groups, group, key) <==> Find(groups, group, key).Some?
  {
    if groups != [] {
      UniqueTail(groups);
      PresentIsFound(groups[1..], group, key);
      assert forall g <- groups :: g == groups[0] || g in groups[1..];
      assert forall g <- groups[1..] :: g in groups && g.name != groups[0].name;
      assert groups[0] in groups;
    }
  }

  lemma UniqueTail(groups: seq<Group>)
    requires Unique(groups) && groups != []
    ensures Unique(groups[1..])
  {
    forall g | g in groups[1..] ensures UniqueKeys(g.lines) {
      assert g in groups;
    }
  }

  lemma {:induction false} NothingSaid(lines: seq<Line>, key: string)
    requires forall l <- lines :: !Says(l)
    ensures FindLine(lines, key).None?
  {
    if lines != [] {
      assert lines[0] in lines;
      NothingSaid(lines[1..], key);
    }
  }

  lemma {:induction false} NoSuchGroup(groups: seq<Group>, group: string, key: string)
    requires forall g <- groups :: g.name != group
    ensures Find(groups, group, key).None?
  {
    if groups != [] {
      assert groups[0] in groups;
      NoSuchGroup(groups[1..], group, key);
    }
  }

  lemma {:induction false} FindKeptOf(groups: seq<Group>, group: string, key: string)
    requires Unique(groups)
    ensures Find(KeptOf(groups), group, key) == Find(groups, group, key)
  {
    if groups != [] {
      UniqueTail(groups);
      FindKeptOf(groups[1..], group, key);
      if !Keeps(groups[0]) {
        NothingSaid(groups[0].lines, key);
        if groups[0].name == group {
          assert forall g <- groups[1..] :: g.name != group;
          NoSuchGroup(groups[1..], group, key);
        }
      }
    }
  }

  lemma FindKept(groups: seq<Group>, group: string, key: string)
    requires Unique(groups) && groups != []
    ensures Find(Kept(groups), group, key) == Find(groups, group, key)
  {
    UniqueTail(groups);
    FindKeptOf(groups[1..], group, key);
  }

  // ----- edits keep a file sound and its names unique -----

  lemma {:induction false} FaithfulSetLine(lines: seq<Line>, key: string, value: string)
    requires FaithfulLine(Pair(key, value))
    requires forall l <- lines :: FaithfulLine(l)
    ensures forall l <- SetLine(lines, key, value) :: FaithfulLine(l)
  {
    if lines != [] {
      assert lines[0] in lines;
      FaithfulSetLine(lines[1..], key, value);
    }
  }

  lemma {:induction false} SetKeyNames(groups: seq<Group>, group: string, key: string, value: string)
    ensures var r := SetKey(groups, group, key, value);
      && |groups| <= |r| <= |groups| + 1
      && (forall i | 0 <= i < |groups| :: r[i].name == groups[i].name)
      && (|r| == |groups| + 1 ==> r[|groups|].name == group && forall g <- groups :: g.name != group)
  {
    if groups != [] && groups[0].name != group {
      SetKeyNames(groups[1..], group, key, value);
      assert forall g <- groups :: g == groups[0] || g in groups[1..];
    }
  }

  lemma {:induction false} SetKeyFaithful(groups: seq<Group>, group: string, key: string, value: string)
    requires Clean(group) && FaithfulLine(Pair(key, value))
    requires forall g <- groups :: Faithful(g)
    ensures forall g <- SetKey(groups, group, key, value) :: Faithful(g)
  {
    if groups != [] {
      assert groups[0] in groups;
      if groups[0].name == group {
        FaithfulSetLine(groups[0].lines, key, value);
      } else {
        SetKeyFaithful(groups[1..], group, key, value);
      }
    }
  }

  lemma SetKeySound(groups: seq<Group>, group: string, key: string, value: string)
    requires Sound(groups) && group != "" && Clean(group) && FaithfulLine(Pair(key, value))
    ensures Sound(SetKey(groups, group, key, value))
  {
    SetKeyNames(groups, group, key, value);
    SetKeyFaithful(groups, group, key, value);
    SoundAgain(groups, SetKey(groups, group, key, value), group);
  }

  lemma SoundAgain(groups: seq<Group>, after: seq<Group>, group: string)
    requires Sound(groups) && group != "" && |groups| <= |after| <= |groups| + 1
    requires forall i | 0 <= i < |groups| :: after[i].name == groups[i].name
    requires |after| == |groups| + 1 ==> after[|groups|].name == group
    requires forall g <- after :: Faithful(g)
    ensures Sound(after)
  {}

  lemma {:induction false} SetLineKeys(lines: seq<Line>, key: string, value: string)
    ensures forall l <- SetLine(lines, key, value) :: l == Pair(key, value) || l in lines
    ensures UniqueKeys(lines) ==> UniqueKeys(SetLine(lines, key, value))
  {
    if lines != [] && !(lines[0].Pair? && lines[0].key == key) {
      SetLineKeys(lines[1..], key, value);
      if lines[0].Pair? {
        FindLineSet(lines[1..], key, value, lines[0].key);
      }
    }
  }

  lemma {:induction false} SetKeyUniqueKeys(groups: seq<Group>, group: string, key: string, value: string)
    requires forall g <- groups :: UniqueKeys(g.lines)
    ensures forall g <- SetKey(groups, group, key, value) :: UniqueKeys(g.lines)
  {
    if groups != [] {
      assert groups[0] in groups;
      if groups[0].name == group {
        SetLineKeys(groups[0].lines, key, value);
      } else {
        SetKeyUniqueKeys(groups[1..], group, key, value);
      }
    }
  }

  lemma SetKeyUnique(groups: seq<Group>, group: string, key: string, value: string)
    requires Unique(groups)
    ensures Unique(SetKey(groups, group, key, value))
  {
    SetKeyNames(groups, group, key, value);
    SetKeyUniqueKeys(groups, group, key, value);
  }

  lemma {:induction false} DropLineKeys(lines: seq<Line>, key: string)
    ensures forall l <- DropLine(lines, key) :: l in lines
    ensures UniqueKeys(lines) ==> UniqueKeys(DropLine(lines, key))
  {
    if lines != [] {
      DropLineKeys(lines[1..], key);
      if lines[0].Pair? {
        FindLineDrop(lines[1..], key, lines[0].key);
      }
    }
  }

  lemma {:induction false} RemoveKeyNames(groups: seq<Group>, group: string, key: string)
    ensures |RemoveKey(groups, group, key)| == |groups|
    ensures forall i | 0 <= i < |groups| :: RemoveKey(groups, group, key)[i].name == groups[i].name
  {
    if groups != [] {
      RemoveKeyNames(groups[1..], group, key);
    }
  }

  predicate Tidy(groups: seq<Group>) { forall g <- groups :: UniqueKeys(g.lines) && Faithful(g) }

  lemma TidyCons(g: Group, rest: seq<Group>)
    requires UniqueKeys(g.lines) && Faithful(g) && Tidy(rest)
    ensures Tidy([g] + rest)
  {}

  lemma {:induction false} RemoveKeyTidy(groups: seq<Group>, group: string, key: string)
    requires Tidy(groups)
    ensures Tidy(RemoveKey(groups, group, key))
  {
    if groups != [] {
      var g, rest := groups[0], groups[1..];
      assert g in groups && forall x <- rest :: x in groups;
      if g.name == group {
        DropLineKeys(g.lines, key);
        TidyCons(Group(group, DropLine(g.lines, key)), rest);
      } else {
        RemoveKeyTidy(rest, group, key);
        TidyCons(g, RemoveKey(rest, group, key));
      }
    }
  }

  lemma RemoveKeyGroups(groups: seq<Group>, group: string, key: string)
    requires forall g <- groups :: UniqueKeys(g.lines) && Faithful(g)
    ensures forall i | 0 <= i < |groups| :: RemoveKey(groups, group, key)[i].name == groups[i].name
    ensures forall g <- RemoveKey(groups, group, key) :: UniqueKeys(g.lines) && Faithful(g)
  {
    RemoveKeyNames(groups, group, key);
    RemoveKeyTidy(groups, group, key);
  }

  lemma RemoveKeyKeeps(groups: seq<Group>, group: string, key: string)
    requires Sound(groups) && Unique(groups)
    ensures Sound(RemoveKey(groups, group, key)) && Unique(RemoveKey(groups, group, key))
  {
    RemoveKeyGroups(groups, group, key);
  }

  lemma {:induction false} SetLineNoop(lines: seq<Line>, key: string, value: string)
    requires FindLine(lines, key) == Some(value)
    ensures SetLine(lines, key, value) == lines
  {
    var first, rest := lines[0], lines[1..];
    assert lines == [first] + rest;
    if first.Pair? && first.key == key {
      assert first == Pair(key, value);
    } else {
      SetLineNoop(rest, key, value);
    }
  }

  /** Setting a key to the value it has changes nothing. */
  lemma {:induction false} SetKeyNoop(groups: seq<Group>, group: string, key: string, value: string)
    requires Find(groups, group, key) == Some(value)
    ensures SetKey(groups, group, key, value) == groups
  {
    if groups[0].name == group {
      SetLineNoop(groups[0].lines, key, value);
    } else {
      SetKeyNoop(groups[1..], group, key, value);
    }
  }

  // ----- what an edit leaves in place -----

  /** What a group says apart from the touched keys, line by line. */
  function OthersIn(name: string, lines: seq<Line>, touched: set<(string, string)>): seq<(string, Line)> {
    if lines == [] then []
    else if !Says(lines[0]) || (lines[0].Pair? && (name, lines[0].key) in touched)
    then OthersIn(name, lines[1..], touched)
    else [(name, lines[0])] + OthersIn(name, lines[1..], touched)
  }

  /** Everything a file says apart from the touched keys, in file order. */
  function Others(groups: seq<Group>, touched: set<(string, string)>): seq<(string, Line)> {
    if groups == [] then []
    else OthersIn(groups[0].name, groups[0].lines, touched) + Others(groups[1..], touched)
  }

  lemma {:induction false} OthersSetLine(name: string, lines: seq<Line>, key: string, value: string,
                                         touched: set<(string, string)>)
    requires (name, key) in touched
    ensures OthersIn(name, SetLine(lines, key, value), touched) == OthersIn(name, lines, touched)
  {
    if lines != [] {
      OthersSetLine(name, lines[1..], key, value, touched);
    }
  }

  lemma {:induction false} OthersSet(groups: seq<Group>, group: string, key: string, value: string,
                                     touched: set<(string, string)>)
    requires (group, key) in touched
    ensures Others(SetKey(groups, group, key, value), touched) == Others(groups, touched)
  {
    if groups == [] {
      assert OthersIn(group, [Pair(key, value)], touched) == [];
    } else {
      OthersSetLine(group, groups[0].lines, key, value, touched);
      OthersSet(groups[1..], group, key, value, touched);
    }
  }

  lemma {:induction false} OthersDropLine(name: string, lines: seq<Line>, key: string,
                                          touched: set<(string, string)>)
    requires (name, key) in touched
    ensures OthersIn(name, DropLine(lines, key), touched) == OthersIn(name, lines, touched)
  {
    if lines != [] {
      OthersDropLine(name, lines[1..], key, touched);
    }
  }

  lemma {:induction false} OthersRemove(groups: seq<Group>, group: string, key: string,
                                        touched: set<(string, string)>)
    requires (group, key) in touched
    ensures Others(RemoveKey(groups, group, key), touched) == Others(groups, touched)
  {
    if groups != [] {
      OthersDropLine(group, groups[0].lines, key, touched);
      OthersRemove(groups[1..], group, key, touched);
    }
  }

  lemma {:induction false} OthersSilent(name: string, lines: seq<Line>, touched: set<(string, string)>)
    requires forall l <- lines :: !Says(l)
    ensures OthersIn(name, lines, touched) == []
  {
    if lines != [] {
      assert lines[0] in lines;
      OthersSilent(name, lines[1..], touched);
    }
  }

  lemma OthersCons(g: Group, rest: seq<Group>, touched: set<(string, string)>)
    ensures Others([g] + rest, touched) == OthersIn(g.name, g.lines, touched) + Others(rest, touched)
  {
    assert ([g] + rest)[1..] == rest;
  }

  lemma {:induction false} OthersKeptOf(groups: seq<Group>, touched: set<(string, string)>)
    ensures Others(KeptOf(groups), touched) == Others(groups, touched)
  {
    if groups != [] {
      OthersKeptOf(groups[1..], touched);
      var g, rest := groups[0], groups[1..];
      assert [g] + rest == groups;
      OthersCons(g, rest, touched);
      if Keeps(g) {
        OthersCons(g, KeptOf(rest), touched);
      } else {
        OthersSilent(g.name, g.lines, touched);
        assert [] + Others(rest, touched) == Others(rest, touched);
      }
    }
  }
}
