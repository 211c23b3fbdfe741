/** The keyfile as the object `src/overrides.rs` edits in place. */
module KeyFileObject {
  import opened Text
  import opened KeyFiles

  lemma {:induction false} SetLineAt(lines: seq<Line>, key: string, value: string, j: nat)
    requires j < |lines| && lines[j].Pair? && lines[j].key == key
    requires forall i | 0 <= i < j :: !(lines[i].Pair? && lines[i].key == key)
    ensures SetLine(lines, key, value) == lines[j := Pair(key, value)]
  {
    if j > 0 {
      SetLineAt(lines[1..], key, value, j - 1);
    }
  }

  lemma {:induction false} SetLineEnd(lines: seq<Line>, key: string, value: string)
    requires forall i | 0 <= i < |lines| :: !(lines[i].Pair? && lines[i].key == key)
    ensures SetLine(lines, key, value) == lines + [Pair(key, value)]
  {
    if lines != [] {
      SetLineEnd(lines[1..], key, value);
    }
  }

  lemma {:induction false} FirstGroup(groups: seq<Group>, group: string, key: string, value: string, i: nat)
    requires i <= |groups|
    requires forall j | 0 <= j < i :: groups[j].name != group
    requires i < |groups| ==> groups[i].name == group
    ensures SetKey(groups, group, key, value) ==
            if i == |groups| then groups + [Group(group, [Pair(key, value)])]
            else groups[i := Group(group, SetLine(groups[i].lines, key, value))]
    ensures RemoveKey(groups, group, key) ==
            if i == |groups| then groups else groups[i := Group(group, DropLine(groups[i].lines, key))]
  {
    if i > 0 {
      var rest := groups[1..];
      FirstGroup(rest, group, key, value, i - 1);
      assert groups == [groups[0]] + rest;
      if i < |groups| {
        var lines := groups[i].lines;
        var set_, dropped := Group(group, SetLine(lines, key, value)), Group(group, DropLine(lines, key));
        assert [groups[0]] + rest[i - 1 := set_] == groups[i := set_];
        assert [groups[0]] + rest[i - 1 := dropped] == groups[i := dropped];
      } else {
        SeqAssociative([groups[0]], rest, [Group(group, [Pair(key, value)])]);
      }
    }
  }

  lemma LineTextsSnoc(lines: seq<Line>, j: nat)
    requires j < |lines|
    ensures Unlines(LineTexts(lines[..j + 1])) == Unlines(LineTexts(lines[..j])) + (LineText(lines[j]) + "\n")
  {
    var one, text := [lines[j]], LineText(lines[j]);
    assert lines[..j + 1] == lines[..j] + one;
    LineTextsAppend(lines[..j], one);
    assert LineTexts(one[1..]) == [] && LineTexts(one) == [text];
    UnlinesAppend(LineTexts(lines[..j]), [text]);
    UnlinesOne(text);
  }

  lemma RenderSnoc(groups: seq<Group>, i: nat)
    requires i < |groups|
    ensures Render(groups[..i + 1]) == Render(groups[..i]) + Unlines(Emit(groups[i]))
  {
    assert groups[..i + 1] == groups[..i] + [groups[i]];
    EmitAllSnoc(groups[..i], groups[i]);
    UnlinesAppend(EmitAll(groups[..i]), Emit(groups[i]));
  }

  lemma EmitHeader(g: Group)
    requires g.name != "" && Keeps(g)
    ensures Unlines(Emit(g)) == "[" + g.name + "]\n" + Unlines(LineTexts(g.lines))
  {
    assert Emit(g)[1..] == LineTexts(g.lines);
  }

  /** The keyfile being edited: its groups, updated in place. */
  class KeyFile {
    var groups: seq<Group>

    constructor Parse(text: string)
      ensures groups == KeyFiles.Parse(text)
    {
      groups := [Group("", [])];
      new;
      var lines := Lines(text);
      for i := 0 to |lines|
        invariant groups != []
        invariant ParseFrom(groups, lines[i..]) == KeyFiles.Parse(text)
      {
        assert lines[i..][0] == lines[i] && lines[i..][1..] == lines[i + 1..];
        ghost var before := groups;
        match Read(lines[i]) {
          case Header(name) =>
            groups := groups + [Group(name, [])];
          case Item(line) =>
            var last := groups[|groups| - 1];
            groups := groups[|groups| - 1 := Group(last.name, last.lines + [line])];
        }
        assert groups == AddLine(before, lines[i]);
      }
    }

    /** The index of the first group of that name, or the number of groups. */
    method FirstNamed(group: string) returns (i: nat)
      ensures i <= |groups|
      ensures forall j | 0 <= j < i :: groups[j].name != group
      ensures i < |groups| ==> groups[i].name == group
    {
      i := 0;
      while i < |groups| && groups[i].name != group
        invariant i <= |groups|
        invariant forall j | 0 <= j < i :: groups[j].name != group
      {
        i := i + 1;
      }
    }

    static method SetInLines(lines: seq<Line>, key: string, value: string) returns (r: seq<Line>)
      ensures r == SetLine(lines, key, value)
    {
      for j := 0 to |lines|
        invariant forall n | 0 <= n < j :: !(lines[n].Pair? && lines[n].key == key)
      {
        if lines[j].Pair? && lines[j].key == key {
          SetLineAt(lines, key, value, j);
          return lines[j := Pair(key, value)];
        }
      }
      SetLineEnd(lines, key, value);
      r := lines + [Pair(key, value)];
    }

    method Set(group: string, key: string, value: string)
      modifies this
      ensures groups == SetKey(old(groups), group, key, value)
    {
      var i := FirstNamed(group);
      FirstGroup(groups, group, key, value, i);
      if i == |groups| {
        groups := groups + [Group(group, [Pair(key, value)])];
        return;
      }
      var lines := SetInLines(groups[i].lines, key, value);
      groups := groups[i := Group(group, lines)];
    }

    method Remove(group: string, key: string)
      modifies this
      ensures groups == RemoveKey(old(groups), group, key)
    {
      var i := FirstNamed(group);
      FirstGroup(groups, group, key, "", i);
      if i < |groups| {
        groups := groups[i := Group(group, DropLine(groups[i].lines, key))];
      }
    }

    static method RenderLines(before: string, lines: seq<Line>) returns (out: string)
      ensures out == before + Unlines(LineTexts(lines))
    {
      out := before;
      for j := 0 to |lines|
        invariant out == before + Unlines(LineTexts(lines[..j]))
      {
        LineTextsSnoc(lines, j);
        var text := match lines[j]
          case Pair(k, v) => k + "=" + v
          case Raw(raw) => raw;
        assert text == LineText(lines[j]);
        SeqAssociative(before, Unlines(LineTexts(lines[..j])), text + "\n");
        out := out + (text + "\n");
      }
      assert lines[..|lines|] == lines;
    }

    static method RenderGroup(g: Group) returns (out: string)
      ensures out == Unlines(Emit(g))
    {
      if g.name == "" {
        out := RenderLines("", g.lines);
      } else if !Keeps(g) {
        out := "";
      } else {
        EmitHeader(g);
        out := RenderLines("[" + g.name + "]\n", g.lines);
      }
    }

    method Render() returns (out: string)
      ensures out == KeyFiles.Render(groups)
    {
      out := "";
      for i := 0 to |groups|
        invariant out == KeyFiles.Render(groups[..i])
      {
        RenderSnoc(groups, i);
        var text := RenderGroup(groups[i]);
        out := out + text;
      }
      assert groups[..|groups|] == groups;
    }
  }
}
