/** The lines of a keyfile that are not kuma's to understand, followed through a
    merge as text: comments and anything else without a key. */
module KeyFileTexts {
  import opened Text
  import opened KeyFiles
  import opened KeyFileEdits
  import opened Convergence

  // ----- lines of a text -----

  predicate IsComment(line: string) { Trim(line) != "" && Trim(line)[0] == '#' }

  /** A key stands before the first equals sign. */
  predicate HasKey(t: string) {
    exists i | 0 <= i < |t| :: t[i] == '=' && '=' !in t[..i] && Trim(t[..i]) != ""
  }

  /** Neither blank, nor in brackets, nor a key with a value. */
  predicate IsUnparsed(line: string) {
    var t := Trim(line);
    t != "" && !(|t| >= 2 && t[0] == '[' && t[|t| - 1] == ']') && (t[0] == '#' || !HasKey(t))
  }

  function Comments(lines: seq<string>): seq<string> {
    if lines == [] then []
    else if IsComment(lines[0]) then [lines[0]] + Comments(lines[1..])
    else Comments(lines[1..])
  }

  function Unparsed(lines: seq<string>): seq<string> {
    if lines == [] then []
    else if IsUnparsed(lines[0]) then [lines[0]] + Unparsed(lines[1..])
    else Unparsed(lines[1..])
  }

  lemma {:induction false} UnparsedAppend(a: seq<string>, b: seq<string>)
    ensures Unparsed(a + b) == Unparsed(a) + Unparsed(b)
  {
    if a == [] {
      assert a + b == b;
    } else {
      assert (a + b)[0] == a[0] && (a + b)[1..] == a[1..] + b;
      UnparsedAppend(a[1..], b);
    }
  }

  /** Comments are among the unparsed lines. */
  lemma {:induction false} CommentsAreUnparsed(lines: seq<string>)
    ensures Comments(Unparsed(lines)) == Comments(lines)
  {
    if lines != [] {
      CommentsAreUnparsed(lines[1..]);
      var rest := Unparsed(lines[1..]);
      assert ([lines[0]] + rest)[1..] == rest;
    }
  }

  // ----- the same lines in a parsed file -----

  function TextsOf(lines: seq<Line>): seq<string> {
    if lines == [] then []
    else if lines[0].Raw? && IsUnparsed(lines[0].text) then [lines[0].text] + TextsOf(lines[1..])
    else TextsOf(lines[1..])
  }

  function AllTexts(groups: seq<Group>): seq<string> {
    if groups == [] then [] else TextsOf(groups[0].lines) + AllTexts(groups[1..])
  }

  lemma KeyAt(t: string)
    ensures HasKey(t) <==> IndexOf(t, '=') < |t| && Trim(t[..IndexOf(t, '=')]) != ""
  {
    if i :| 0 <= i < |t| && t[i] == '=' && '=' !in t[..i] && Trim(t[..i]) != "" {
      IndexOfIs(t, '=', i);
    }
  }

  lemma UnparsedReads(line: string)
    ensures IsUnparsed(line) <==> Read(line) == Item(Raw(line)) && Trim(line) != ""
    ensures Read(line).Item? && Read(line).line.Raw? ==> Read(line).line.text == line
  {
    KeyAt(Trim(line));
  }

  /** A header is its name between brackets, white space around it aside. */
  lemma HeaderMeans(line: string, name: string)
    ensures Read(line) == Header(name) <==>
      exists left, right :: Blank(left) && Blank(right) && line == left + ("[" + name + "]") + right
  {
    var t := "[" + name + "]";
    TrimMeans(line, t);
    assert t[1..|t| - 1] == name;
    if Read(line) == Header(name) {
      var s := Trim(line);
      assert s == [s[0]] + s[1..|s| - 1] + [s[|s| - 1]];
    }
  }

  /** A line says a key's value: the key, an equals sign and the value, with
      white space before the sign and around the whole, and neither a comment
      nor a header. */
  ghost predicate SaysPair(line: string, key: string, value: string) {
    && key != "" && Trimmed(key) && '=' !in key && key[0] != '#'
    && (value != "" ==> !IsSpace(value[|value| - 1]) && !(key[0] == '[' && value[|value| - 1] == ']'))
    && exists left, gap, right ::
         Blank(left) && Blank(gap) && Blank(right) && line == left + (key + gap + "=" + value) + right
  }

  lemma KeyOfText(t: string, at: nat) returns (gap: string)
    requires at < |t| && t[at] == '=' && Trimmed(t)
    ensures Blank(gap) && t == Trim(t[..at]) + gap + "=" + t[at + 1..]
  {
    var none, more := TrimDecomposes(t[..at]);
    gap := more;
    assert t == t[..at] + "=" + t[at + 1..];
    if at > 0 {
      assert !IsSpace(t[..at][0]);
    }
    assert t[..at] == Trim(t[..at]) + gap;
  }

  lemma PairIsSaid(line: string, key: string, value: string)
    requires Read(line) == Item(Pair(key, value))
    ensures SaysPair(line, key, value)
  {
    var t := Trim(line);
    var at := IndexOf(t, '=');
    TrimIsTrimmed(line);
    TrimIsTrimmed(t[..at]);
    KeyIsPlain(t, at, key, value);
    var left, right := TrimDecomposes(line);
    var gap := KeyOfText(t, at);
  }

  lemma KeyIsPlain(t: string, at: nat, key: string, value: string)
    requires at < |t| && '=' !in t[..at] && t[0] != '#' && !IsHeader(t) && Trimmed(t)
    requires key == Trim(t[..at]) && key != "" && value == t[at + 1..]
    ensures Trimmed(key) && '=' !in key && key[0] == t[0]
    ensures value != "" ==> !IsSpace(value[|value| - 1]) && !(key[0] == '[' && value[|value| - 1] == ']')
  {
    TrimIsTrimmed(t[..at]);
    if at > 0 {
      var none, gap := TrimDecomposes(t[..at]);
    }
    if value != "" {
      assert t[|t| - 1] == value[|value| - 1];
    }
  }

  lemma SaidIsPair(line: string, key: string, value: string)
    requires SaysPair(line, key, value)
    ensures Read(line) == Item(Pair(key, value))
  {
    var left, gap, right :|
      Blank(left) && Blank(gap) && Blank(right) && line == left + (key + gap + "=" + value) + right;
    var t := key + gap + "=" + value;
    assert t[|t| - 1] == if value == "" then '=' else value[|value| - 1];
    TrimAbsorbs(left, t, right);
    TextSays(key, gap, value);
  }

  lemma TextSays(key: string, gap: string, value: string)
    requires key != "" && Trimmed(key) && '=' !in key && Blank(gap)
    ensures var t := key + gap + "=" + value; var at := |key| + |gap|;
      IndexOf(t, '=') == at && Trim(t[..at]) == key && t[at + 1..] == value
  {
    var t := key + gap + "=" + value;
    assert t[..|key + gap|] == key + gap && t[|key + gap| + 1..] == value;
    IndexOfIs(t, '=', |key + gap|);
    assert key + gap == "" + key + gap;
    TrimAbsorbs("", key, gap);
  }

  lemma PairMeans(line: string, key: string, value: string)
    ensures Read(line) == Item(Pair(key, value)) <==> SaysPair(line, key, value)
  {
    if Read(line) == Item(Pair(key, value)) {
      PairIsSaid(line, key, value);
    }
    if SaysPair(line, key, value) {
      SaidIsPair(line, key, value);
    }
  }

  lemma {:induction false} TextsOfAppend(a: seq<Line>, b: seq<Line>)
    ensures TextsOf(a + b) == TextsOf(a) + TextsOf(b)
  {
    if a == [] {
      assert a + b == b;
    } else {
      assert (a + b)[0] == a[0] && (a + b)[1..] == a[1..] + b;
      TextsOfAppend(a[1..], b);
    }
  }

  lemma {:induction false} AllTextsAppend(a: seq<Group>, b: seq<Group>)
    ensures AllTexts(a + b) == AllTexts(a) + AllTexts(b)
  {
    if a == [] {
      assert a + b == b;
    } else {
      assert (a + b)[0] == a[0] && (a + b)[1..] == a[1..] + b;
      AllTextsAppend(a[1..], b);
      SeqAssociative(TextsOf(a[0].lines), AllTexts(a[1..]), AllTexts(b));
    }
  }

  lemma AllTextsOne(g: Group)
    ensures AllTexts([g]) == TextsOf(g.lines)
  {
    assert [g][1..] == [];
  }

  lemma OneText(line: string)
    ensures Read(line).Item? ==> TextsOf([Read(line).line]) == Unparsed([line])
    ensures Read(line).Header? ==> Unparsed([line]) == []
  {
    UnparsedReads(line);
    assert [line][1..] == [];
    if Read(line).Item? {
      assert [Read(line).line][1..] == [];
    }
  }

  lemma AddTexts(groups: seq<Group>, line: string)
    requires groups != []
    ensures AllTexts(AddLine(groups, line)) == AllTexts(groups) + Unparsed([line])
  {
    var front, last := groups[..|groups| - 1], groups[|groups| - 1];
    assert groups == front + [last];
    OneText(line);
    AllTextsAppend(front, [last]);
    AllTextsOne(last);
    match Read(line)
    case Header(name) =>
      AllTextsAppend(groups, [Group(name, [])]);
      AllTextsOne(Group(name, []));
    case Item(l) =>
      var more := Group(last.name, last.lines + [l]);
      AllTextsAppend(front, [more]);
      AllTextsOne(more);
      TextsOfAppend(last.lines, [l]);
      SeqAssociative(AllTexts(front), TextsOf(last.lines), TextsOf([l]));
  }

  lemma {:induction false} ParseTexts(groups: seq<Group>, lines: seq<string>)
    requires groups != []
    ensures AllTexts(ParseFrom(groups, lines)) == AllTexts(groups) + Unparsed(lines)
    decreases |lines|
  {
    if lines == [] {
      assert AllTexts(groups) + [] == AllTexts(groups);
    } else {
      AddTexts(groups, lines[0]);
      ParseTexts(AddLine(groups, lines[0]), lines[1..]);
      UnparsedAppend([lines[0]], lines[1..]);
      assert lines == [lines[0]] + lines[1..];
      SeqAssociative(AllTexts(groups), Unparsed([lines[0]]), Unparsed(lines[1..]));
    }
  }

  lemma TextsOfParsed(text: string)
    ensures AllTexts(Parse(text)) == Unparsed(Lines(text))
  {
    ParseTexts(NAMELESS, Lines(text));
    AllTextsOne(Group("", []));
    assert [] + Unparsed(Lines(text)) == Unparsed(Lines(text));
  }

  // ----- through the edits -----

  lemma {:induction false} SetLineTexts(lines: seq<Line>, key: string, value: string)
    ensures TextsOf(SetLine(lines, key, value)) == TextsOf(lines)
  {
    if lines == [] {
      assert [Pair(key, value)][1..] == [];
    } else {
      SetLineTexts(lines[1..], key, value);
      assert ([Pair(key, value)] + lines[1..])[1..] == lines[1..];
      assert ([lines[0]] + SetLine(lines[1..], key, value))[1..] == SetLine(lines[1..], key, value);
    }
  }

  lemma {:induction false} DropLineTexts(lines: seq<Line>, key: string)
    ensures TextsOf(DropLine(lines, key)) == TextsOf(lines)
  {
    if lines != [] {
      DropLineTexts(lines[1..], key);
      assert ([lines[0]] + DropLine(lines[1..], key))[1..] == DropLine(lines[1..], key);
    }
  }

  lemma AllTextsCons(g: Group, rest: seq<Group>)
    ensures AllTexts([g] + rest) == TextsOf(g.lines) + AllTexts(rest)
  {
    assert ([g] + rest)[1..] == rest;
  }

  lemma {:induction false} SetKeyTexts(groups: seq<Group>, group: string, key: string, value: string)
    ensures AllTexts(SetKey(groups, group, key, value)) == AllTexts(groups)
  {
    if groups == [] {
      AllTextsOne(Group(group, [Pair(key, value)]));
      assert [Pair(key, value)][1..] == [];
    } else {
      var g, rest := groups[0], groups[1..];
      SetLineTexts(g.lines, key, value);
      SetKeyTexts(rest, group, key, value);
      AllTextsCons(Group(group, SetLine(g.lines, key, value)), rest);
      AllTextsCons(g, SetKey(rest, group, key, value));
    }
  }

  lemma {:induction false} RemoveKeyTexts(groups: seq<Group>, group: string, key: string)
    ensures AllTexts(RemoveKey(groups, group, key)) == AllTexts(groups)
  {
    if groups != [] {
      var g, rest := groups[0], groups[1..];
      DropLineTexts(g.lines, key);
      RemoveKeyTexts(rest, group, key);
      AllTextsCons(Group(group, DropLine(g.lines, key)), rest);
      AllTextsCons(g, RemoveKey(rest, group, key));
    }
  }

  lemma {:induction false} ApplyWantedTexts(groups: seq<Group>, wanted: seq<Entry>)
    ensures AllTexts(ApplyWanted(groups, wanted)) == AllTexts(groups)
    decreases |wanted|
  {
    if wanted != [] {
      var w := wanted[0];
      SetKeyTexts(groups, w.group, w.key, w.value);
      ApplyWantedTexts(SetKey(groups, w.group, w.key, w.value), wanted[1..]);
    }
  }

  lemma {:induction false} TakeBackTexts(groups: seq<Group>, previously: seq<string>, owned: seq<string>)
    ensures AllTexts(TakeBack(groups, previously, owned)) == AllTexts(groups)
    decreases |previously|
  {
    if previously != [] {
      match Doomed(groups, previously[0], owned)
      case None => TakeBackTexts(groups, previously[1..], owned);
      case Some(gk) =>
        RemoveKeyTexts(groups, gk.0, gk.1);
        TakeBackTexts(RemoveKey(groups, gk.0, gk.1), previously[1..], owned);
    }
  }

  // ----- through the writing -----

  lemma {:induction false} LineTextsTexts(lines: seq<Line>)
    requires forall l <- lines :: FaithfulLine(l)
    ensures Unparsed(LineTexts(lines)) == TextsOf(lines)
  {
    if lines != [] {
      var l, rest := lines[0], LineTexts(lines[1..]);
      assert FaithfulLine(l) by { assert l in lines; }
      UnparsedReads(LineText(l));
      LineTextsTexts(lines[1..]);
      assert ([LineText(l)] + rest)[1..] == rest;
    }
  }

  /** A group that would not be written has nothing to lose. */
  lemma {:induction false} SilentTexts(lines: seq<Line>)
    requires forall l <- lines :: !Says(l)
    ensures TextsOf(lines) == []
  {
    if lines != [] {
      assert lines[0] in lines;
      SilentTexts(lines[1..]);
    }
  }

  lemma EmitTexts(g: Group)
    requires Faithful(g)
    ensures Unparsed(Emit(g)) == TextsOf(g.lines)
  {
    LineTextsTexts(g.lines);
    if g.name != "" && !Keeps(g) {
      SilentTexts(g.lines);
    } else if g.name != "" {
      var header := "[" + g.name + "]";
      ReadHeaderAgain(g.name);
      OneText(header);
      UnparsedAppend([header], LineTexts(g.lines));
    }
  }

  lemma {:induction false} EmitAllTexts(groups: seq<Group>)
    requires forall g <- groups :: Faithful(g)
    ensures Unparsed(EmitAll(groups)) == AllTexts(groups)
  {
    if groups != [] {
      assert groups[0] in groups;
      EmitTexts(groups[0]);
      EmitAllTexts(groups[1..]);
      UnparsedAppend(Emit(groups[0]), EmitAll(groups[1..]));
    }
  }

  lemma RenderedLines(groups: seq<Group>)
    requires Sound(groups)
    ensures Lines(Render(groups)) == EmitAll(groups)
  {
    EmitAllClean(groups);
    AllSurvive(EmitAll(groups));
    LinesRoundTrip(EmitAll(groups));
  }

  lemma {:induction false} BlankHoldsNothing(lines: seq<string>)
    requires Blank(Unlines(lines))
    ensures Unparsed(lines) == []
  {
    if lines != [] {
      var l, rest := lines[0], Unlines(lines[1..]);
      assert Unlines(lines) == l + "\n" + rest;
      assert Blank(l) by {
        forall c | c in l ensures IsSpace(c) {
          assert c in Unlines(lines);
        }
      }
      assert Blank(rest) by {
        forall c | c in rest ensures IsSpace(c) {
          assert c in Unlines(lines);
        }
      }
      TrimEmptyIffBlank(l);
      BlankHoldsNothing(lines[1..]);
    }
  }

  lemma FinishedTexts(groups: seq<Group>)
    requires Sound(groups)
    ensures Unparsed(Lines(Finish(Render(groups)))) == AllTexts(groups)
  {
    RenderedLines(groups);
    EmitAllTexts(groups);
    TrimEmptyIffBlank(Render(groups));
    if Finish(Render(groups)) == "" {
      BlankHoldsNothing(EmitAll(groups));
    }
  }

  // ----- the theorems -----

  /** A merge keeps every line that is not a key, a header or blank, character
      for character and in order; comments in particular, whatever becomes of the
      keys beside them. */
  lemma ConvergeKeepsTexts(live: string, wanted: seq<Entry>, previously: seq<string>)
    requires WellFormed(live) && Legal(wanted)
    ensures var out := Converge(live, wanted, previously).text;
      && Unparsed(Lines(out)) == Unparsed(Lines(live))
      && Comments(Lines(out)) == Comments(Lines(live))
  {
    var groups := Parse(live);
    MergedKeeps(live, wanted, previously);
    FinishedTexts(Merged(live, wanted, previously));
    TakeBackTexts(ApplyWanted(groups, wanted), previously, Ids(wanted));
    ApplyWantedTexts(groups, wanted);
    TextsOfParsed(live);
    CommentsAreUnparsed(Lines(live));
    CommentsAreUnparsed(Lines(Converge(live, wanted, previously).text));
  }

  /** A merge never writes a file of nothing but white space, and what it writes
      as no file holds no key and had nothing else to keep. */
  lemma ConvergeWritesNoBlankFile(live: string, wanted: seq<Entry>, previously: seq<string>)
    requires WellFormed(live) && Legal(wanted)
    ensures var out := Converge(live, wanted, previously).text;
      && (Blank(out) <==> out == "")
      && (out == "" ==> wanted == [] && Unparsed(Lines(live)) == [])
  {
    var out := Converge(live, wanted, previously).text;
    TrimEmptyIffBlank(out);
    TrimEmptyIffBlank("");
    ConvergeKeepsTexts(live, wanted, previously);
    if wanted != [] {
      var e := wanted[|wanted| - 1];
      LastIsAsked(wanted);
      ConvergeDecidesKeys(live, wanted, previously, e.group, e.key);
      ParseEmpty();
    }
  }

  lemma {:induction false} LastIsAsked(wanted: seq<Entry>)
    requires wanted != []
    ensures var e := wanted[|wanted| - 1]; Asked(wanted, e.group, e.key).Some?
  {
    if |wanted| > 1 {
      LastIsAsked(wanted[1..]);
    }
  }
}
