/** Keyfiles as `src/overrides.rs` reads, edits and writes them: groups of
    `key=value` lines in which everything not understood is kept as it was. */
module KeyFiles {
  import opened Text

  datatype Line = Pair(key: string, value: string) | Raw(text: string)

  datatype Group = Group(name: string, lines: seq<Line>)

  /** One line of a file: a group header, or something inside a group. */
  datatype Reading = Header(name: string) | Item(line: Line)

  predicate IsHeader(trimmed: string) {
    |trimmed| >= 2 && trimmed[0] == '[' && trimmed[|trimmed| - 1] == ']'
  }

  function Read(line: string): Reading {
    var t := Trim(line);
    if IsHeader(t) then Header(t[1..|t| - 1])
    else
      var at := IndexOf(t, '=');
      if at < |t| && t[0] != '#' && Trim(t[..at]) != ""
      then Item(Pair(Trim(t[..at]), t[at + 1..]))
      else Item(Raw(line))
  }

  function AddLine(groups: seq<Group>, line: string): (r: seq<Group>)
    requires groups != []
    ensures r != []
  {
    var last := groups[|groups| - 1];
    match Read(line)
    case Header(name) => groups + [Group(name, [])]
    case Item(l) => groups[..|groups| - 1] + [Group(last.name, last.lines + [l])]
  }

  function ParseFrom(groups: seq<Group>, lines: seq<string>): (r: seq<Group>)
    requires groups != []
    ensures r != []
    decreases |lines|
  {
    if lines == [] then groups else ParseFrom(AddLine(groups, lines[0]), lines[1..])
  }

  const NAMELESS := [Group("", [])]

  /** What precedes the first header lives in a nameless group. */
  function Parse(text: string): (r: seq<Group>)
    ensures r != []
  {
    ParseFrom(NAMELESS, Lines(text))
  }

  // ----- writing -----

  function LineText(line: Line): string {
    match line
    case Pair(k, v) => k + "=" + v
    case Raw(text) => text
  }

  function LineTexts(lines: seq<Line>): seq<string> {
    if lines == [] then [] else [LineText(lines[0])] + LineTexts(lines[1..])
  }

  predicate Says(line: Line) { line.Pair? || Trim(line.text) != "" }

  predicate Keeps(g: Group) { exists l <- g.lines :: Says(l) }

  function Emit(g: Group): seq<string> {
    if g.name == "" then LineTexts(g.lines)
    else if !Keeps(g) then []
    else ["[" + g.name + "]"] + LineTexts(g.lines)
  }

  function EmitAll(groups: seq<Group>): seq<string> {
    if groups == [] then [] else Emit(groups[0]) + EmitAll(groups[1..])
  }

  function Render(groups: seq<Group>): string { Unlines(EmitAll(groups)) }

  // ----- editing -----

  function SetLine(lines: seq<Line>, key: string, value: string): seq<Line> {
    if lines == [] then [Pair(key, value)]
    else if lines[0].Pair? && lines[0].key == key then [Pair(key, value)] + lines[1..]
    else [lines[0]] + SetLine(lines[1..], key, value)
  }

  /** Set a key in the first group of that name, at the end of the file if
      there is none. */
  function SetKey(groups: seq<Group>, group: string, key: string, value: string): (r: seq<Group>)
    ensures r != []
  {
    if groups == [] then [Group(group, [Pair(key, value)])]
    else if groups[0].name == group then
      [Group(group, SetLine(groups[0].lines, key, value))] + groups[1..]
    else [groups[0]] + SetKey(groups[1..], group, key, value)
  }

  function DropLine(lines: seq<Line>, key: string): seq<Line> {
    if lines == [] then []
    else if lines[0].Pair? && lines[0].key == key then DropLine(lines[1..], key)
    else [lines[0]] + DropLine(lines[1..], key)
  }

  /** Remove a key from the first group of that name, and from no other. */
  function RemoveKey(groups: seq<Group>, group: string, key: string): (r: seq<Group>)
    ensures |r| == |groups|
  {
    if groups == [] then []
    else if groups[0].name == group then [Group(group, DropLine(groups[0].lines, key))] + groups[1..]
    else [groups[0]] + RemoveKey(groups[1..], group, key)
  }

  function FindLine(lines: seq<Line>, key: string): Option<string> {
    if lines == [] then None
    else if lines[0].Pair? && lines[0].key == key then Some(lines[0].value)
    else FindLine(lines[1..], key)
  }

  /** The value of the first line for `key` in the first group of that name. */
  function Find(groups: seq<Group>, group: string, key: string): Option<string> {
    if groups == [] then None
    else if groups[0].name == group then FindLine(groups[0].lines, key)
    else Find(groups[1..], group, key)
  }

  /** Any group of that name holds the key: the presence test of a removal
      looks further than the removal itself. */
  predicate Present(groups: seq<Group>, group: string, key: string) {
    exists g <- groups :: g.name == group && FindLine(g.lines, key).Some?
  }

  // ----- which files come back as they were written -----

  /** A line that is read back as itself. */
  predicate FaithfulLine(line: Line) {
    Clean(LineText(line)) && Read(LineText(line)) == Item(line)
  }

  predicate Faithful(g: Group) {
    Clean(g.name) && forall l <- g.lines :: FaithfulLine(l)
  }

  /** One nameless group in front, only named groups behind it, every line
      faithful. */
  predicate Sound(groups: seq<Group>) {
    && groups != [] && groups[0].name == ""
    && (forall i | 0 < i < |groups| :: groups[i].name != "")
    && (forall g <- groups :: Faithful(g))
  }

  /** No key is found again further down. */
  predicate UniqueKeys(lines: seq<Line>) {
    lines == [] || (UniqueKeys(lines[1..]) && (lines[0].Pair? ==> FindLine(lines[1..], lines[0].key).None?))
  }

  predicate Unique(groups: seq<Group>) {
    && (forall i, j | 0 <= i < j < |groups| :: groups[i].name != groups[j].name)
    && (forall g <- groups :: UniqueKeys(g.lines))
  }

  /** A keyfile without carriage returns, nameless headers, repeated groups or
      repeated keys. */
  predicate WellFormed(text: string) {
    '\r' !in text && Unique(Parse(text))
  }

  /** A key stripped of its white space, written against its value, reads as
      that key and that value. */
  lemma ReadPair(key: string, value: string)
    requires key != "" && Trimmed(key) && '=' !in key && key[0] != '#'
    requires value == "" || !IsSpace(value[|value| - 1])
    requires !IsHeader(key + "=" + value)
    ensures Read(key + "=" + value) == Item(Pair(key, value))
  {
    var u := key + "=" + value;
    assert u[..|key|] == key && u[|key| + 1..] == value;
    assert u[|u| - 1] == if value == "" then '=' else value[|value| - 1];
    TrimOfTrimmed(u);
    IndexOfIs(u, '=', |key|);
    TrimOfTrimmed(key);
  }

  lemma KeyStartsLine(t: string, at: nat)
    requires Trimmed(t) && at < |t| && Trim(t[..at]) != ""
    ensures Trim(t[..at])[0] == t[0]
    ensures Trimmed(Trim(t[..at]))
    ensures forall c <- Trim(t[..at]) :: c in t[..at]
  {
    var l, r := TrimDecomposes(t[..at]);
    TrimIsTrimmed(t[..at]);
    assert t[..at] != "" && t[..at][0] == t[0];
    assert t[..at] == Trim(t[..at]) + r;
  }

  lemma PairText(t: string, at: nat)
    requires Trimmed(t) && Clean(t) && !IsHeader(t) && at < |t| && t[at] == '=' && '=' !in t[..at]
    requires t[0] != '#' && Trim(t[..at]) != ""
    ensures FaithfulLine(Pair(Trim(t[..at]), t[at + 1..]))
  {
    var k, v := Trim(t[..at]), t[at + 1..];
    KeyStartsLine(t, at);
    var u := k + "=" + v;
    assert u[0] == t[0] && u[|u| - 1] == t[|t| - 1];
    ReadPair(k, v);
    assert Clean(u);
  }

  lemma HeaderAgain(line: string)
    requires Clean(line) && IsHeader(Trim(line))
    ensures Read(line).Header? && Clean(Read(line).name)
  {
    TrimIsTrimmed(line);
  }

  predicate IsPair(t: string, at: nat) {
    at < |t| && t[0] != '#' && Trim(t[..at]) != ""
  }

  lemma PairAgain(line: string, at: nat)
    requires Clean(line) && !IsHeader(Trim(line)) && at == IndexOf(Trim(line), '=') && IsPair(Trim(line), at)
    ensures Read(line).Item? && FaithfulLine(Read(line).line)
  {
    TrimIsTrimmed(line);
    PairText(Trim(line), at);
  }

  lemma RawAgain(line: string, at: nat)
    requires Clean(line) && !IsHeader(Trim(line)) && at == IndexOf(Trim(line), '=') && !IsPair(Trim(line), at)
    ensures Read(line) == Item(Raw(line)) && FaithfulLine(Raw(line))
  {}

  lemma ReadAgain(line: string)
    requires Clean(line)
    ensures Read(line).Item? ==> FaithfulLine(Read(line).line)
    ensures Read(line).Header? ==> Clean(Read(line).name)
  {
    var t := Trim(line);
    var at := IndexOf(t, '=');
    if IsHeader(t) {
      HeaderAgain(line);
    } else if IsPair(t, at) {
      PairAgain(line, at);
    } else {
      RawAgain(line, at);
    }
  }

  lemma ReadHeaderAgain(name: string)
    ensures Read("[" + name + "]") == Header(name)
  {
    var h := "[" + name + "]";
    TrimOfTrimmed(h);
    assert h[1..|h| - 1] == name;
  }

  lemma {:induction false} ParseFromFaithful(groups: seq<Group>, lines: seq<string>)
    requires groups != [] && groups[0].name == ""
    requires forall g <- groups :: Faithful(g)
    requires forall l <- lines :: Clean(l)
    ensures ParseFrom(groups, lines)[0].name == ""
    ensures forall g <- ParseFrom(groups, lines) :: Faithful(g)
    decreases |lines|
  {
    if lines != [] {
      assert lines[0] in lines;
      ReadAgain(lines[0]);
      assert groups[|groups| - 1] in groups;
      var next := AddLine(groups, lines[0]);
      forall g | g in next ensures Faithful(g) {
        if g !in groups {
          assert g == next[|next| - 1];
        }
      }
      ParseFromFaithful(next, lines[1..]);
    }
  }

  /** Every well-formed file parses into a sound list of groups. */
  lemma WellFormedIsSound(text: string)
    requires WellFormed(text)
    ensures Sound(Parse(text))
  {
    LinesHoldNoBreak(text);
    ParseFromFaithful(NAMELESS, Lines(text));
  }

  // ----- a written file is read back as the groups it kept -----

  function KeptOf(groups: seq<Group>): seq<Group> {
    if groups == [] then []
    else if Keeps(groups[0]) then [groups[0]] + KeptOf(groups[1..])
    else KeptOf(groups[1..])
  }

  /** The groups that reach the file: a named group that says nothing goes
      with its header. */
  function Kept(groups: seq<Group>): seq<Group>
    requires groups != []
  {
    [groups[0]] + KeptOf(groups[1..])
  }

  lemma {:induction false} ParseFromAppend(groups: seq<Group>, a: seq<string>, b: seq<string>)
    requires groups != []
    ensures ParseFrom(groups, a + b) == ParseFrom(ParseFrom(groups, a), b)
    decreases |a|
  {
    if a == [] {
      assert a + b == b;
    } else {
      assert (a + b)[1..] == a[1..] + b;
      ParseFromAppend(AddLine(groups, a[0]), a[1..], b);
    }
  }

  lemma {:induction false} ReparseLines(front: seq<Group>, g: Group, lines: seq<Line>)
    requires forall l <- lines :: FaithfulLine(l)
    ensures ParseFrom(front + [g], LineTexts(lines)) == front + [Group(g.name, g.lines + lines)]
    decreases |lines|
  {
    if lines == [] {
      assert g.lines + lines == g.lines;
    } else {
      assert lines[0] in lines;
      var next := Group(g.name, g.lines + [lines[0]]);
      assert AddLine(front + [g], LineText(lines[0])) == front + [next];
      ReparseLines(front, next, lines[1..]);
      assert next.lines + lines[1..] == g.lines + lines;
    }
  }

  lemma ReparseGroup(front: seq<Group>, g: Group)
    requires front != [] && g.name != "" && Faithful(g)
    ensures ParseFrom(front, Emit(g)) == if Keeps(g) then front + [g] else front
  {
    if Keeps(g) {
      ReadHeaderAgain(g.name);
      assert Emit(g)[1..] == LineTexts(g.lines);
      ReparseLines(front, Group(g.name, []), g.lines);
      assert [] + g.lines == g.lines;
    }
  }

  lemma {:induction false} ReparseNamed(front: seq<Group>, groups: seq<Group>)
    requires front != []
    requires forall g <- groups :: g.name != "" && Faithful(g)
    ensures ParseFrom(front, EmitAll(groups)) == front + KeptOf(groups)
    decreases |groups|
  {
    if groups == [] {
      assert front + KeptOf(groups) == front;
    } else {
      var g, rest := groups[0], groups[1..];
      assert g in groups;
      var mid := if Keeps(g) then front + [g] else front;
      calc {
        ParseFrom(front, EmitAll(groups));
        { ParseFromAppend(front, Emit(g), EmitAll(rest)); }
        ParseFrom(ParseFrom(front, Emit(g)), EmitAll(rest));
        { ReparseGroup(front, g); }
        ParseFrom(mid, EmitAll(rest));
        { ReparseNamed(mid, rest); }
        mid + KeptOf(rest);
        front + KeptOf(groups);
      }
    }
  }

  lemma {:induction false} LineTextsClean(lines: seq<Line>)
    requires forall l <- lines :: FaithfulLine(l)
    ensures forall t <- LineTexts(lines) :: Clean(t)
  {
    if lines != [] {
      assert lines[0] in lines;
      LineTextsClean(lines[1..]);
    }
  }

  lemma {:induction false} EmitAllClean(groups: seq<Group>)
    requires forall g <- groups :: Faithful(g)
    ensures forall t <- EmitAll(groups) :: Clean(t) && Survives(t)
  {
    if groups != [] {
      assert groups[0] in groups;
      LineTextsClean(groups[0].lines);
      EmitAllClean(groups[1..]);
      forall t | t in EmitAll(groups) ensures Clean(t) && Survives(t) {
        CleanSurvives(t);
      }
    }
  }

  /** The round trip: what `Render` writes is parsed back into exactly the
      groups that kept something. */
  lemma ReparseRendered(groups: seq<Group>)
    requires Sound(groups)
    ensures Parse(Render(groups)) == Kept(groups)
    ensures '\r' !in Render(groups)
  {
    EmitAllClean(groups);
    LinesRoundTrip(EmitAll(groups));
    UnlinesClean(EmitAll(groups));
    var top, rest := groups[0], groups[1..];
    assert top in groups;
    ParseFromAppend(NAMELESS, Emit(top), EmitAll(rest));
    assert [] + NAMELESS == NAMELESS && [] + top.lines == top.lines;
    ReparseLines([], NAMELESS[0], top.lines);
    assert ParseFrom(NAMELESS, Emit(top)) == [top];
    ReparseNamed([top], rest);
  }

  lemma {:induction false} EmitKept(groups: seq<Group>)
    requires forall g <- groups :: g.name != ""
    ensures EmitAll(KeptOf(groups)) == EmitAll(groups)
  {
    if groups != [] {
      assert groups[0] in groups;
      EmitKept(groups[1..]);
    }
  }

  /** Dropping what would not be written changes nothing that is written. */
  lemma RenderKept(groups: seq<Group>)
    requires Sound(groups)
    ensures Render(Kept(groups)) == Render(groups)
  {
    assert Kept(groups)[1..] == KeptOf(groups[1..]);
    EmitKept(groups[1..]);
  }

  // ----- rewriting any file without carriage returns -----

  lemma {:induction false} EmitAllAppend(a: seq<Group>, b: seq<Group>)
    ensures EmitAll(a + b) == EmitAll(a) + EmitAll(b)
  {
    if a == [] {
      assert a + b == b;
    } else {
      assert (a + b)[1..] == a[1..] + b;
      EmitAllAppend(a[1..], b);
    }
  }

  lemma {:induction false} LineTextsAppend(a: seq<Line>, b: seq<Line>)
    ensures LineTexts(a + b) == LineTexts(a) + LineTexts(b)
  {
    if a == [] {
      assert a + b == b;
    } else {
      assert (a + b)[1..] == a[1..] + b;
      LineTextsAppend(a[1..], b);
    }
  }

  predicate Shown(g: Group) { g.name == "" || Keeps(g) }

  lemma EmitAllOne(g: Group)
    ensures EmitAll([g]) == Emit(g)
  {
    assert EmitAll([g][1..]) == [];
  }

  lemma EmitAllSnoc(front: seq<Group>, g: Group)
    ensures EmitAll(front + [g]) == EmitAll(front) + Emit(g)
  {
    EmitAllAppend(front, [g]);
    EmitAllOne(g);
  }

  lemma EmitLonger(g: Group, lines: seq<Line>)
    requires Shown(g)
    ensures var longer := Group(g.name, g.lines + lines);
      Shown(longer) && Emit(longer) == Emit(g) + LineTexts(lines)
  {
    var longer := Group(g.name, g.lines + lines);
    LineTextsAppend(g.lines, lines);
    if Keeps(g) {
      var l :| l in g.lines && Says(l);
      assert l in longer.lines;
    }
  }

  lemma ReemitNameless(front: seq<Group>, g: Group, h: Group)
    requires Shown(g) && Faithful(h) && h.name == ""
    ensures var longer := Group(g.name, g.lines + h.lines);
      && Shown(longer)
      && ParseFrom(front + [g], Emit(h)) == front + [longer]
      && EmitAll(front + [longer]) == EmitAll(front + [g]) + Emit(h)
  {
    var longer := Group(g.name, g.lines + h.lines);
    ReparseLines(front, g, h.lines);
    calc {
      EmitAll(front + [longer]);
      { EmitAllSnoc(front, longer); }
      EmitAll(front) + Emit(longer);
      { EmitLonger(g, h.lines); }
      EmitAll(front) + (Emit(g) + LineTexts(h.lines));
      EmitAll(front) + Emit(g) + LineTexts(h.lines);
      { EmitAllSnoc(front, g); }
      EmitAll(front + [g]) + LineTexts(h.lines);
    }
  }

  /** Even with headers that have no name in the middle of a file, where the
      lines of two groups run together, the text written is stable. */
  lemma {:induction false} ReemitGroups(front: seq<Group>, g: Group, groups: seq<Group>)
    requires Shown(g) && forall h <- groups :: Faithful(h)
    ensures EmitAll(ParseFrom(front + [g], EmitAll(groups))) == EmitAll(front + [g]) + EmitAll(groups)
    decreases |groups|, 1
  {
    if groups != [] {
      var h, rest := groups[0], groups[1..];
      assert h in groups;
      var front', g' := front, g;
      if h.name == "" {
        g' := Group(g.name, g.lines + h.lines);
        ReemitNameless(front, g, h);
      } else {
        ReparseGroup(front + [g], h);
        if Keeps(h) {
          front', g' := front + [g], h;
          EmitAllSnoc(front', h);
        }
      }
      ReemitRest(front, g, h, rest, front', g');
    }
  }

  lemma ReemitRest(front: seq<Group>, g: Group, h: Group, rest: seq<Group>, front': seq<Group>, g': Group)
    requires Shown(g') && forall h <- rest :: Faithful(h)
    requires ParseFrom(front + [g], Emit(h)) == front' + [g']
    requires EmitAll(front' + [g']) == EmitAll(front + [g]) + Emit(h)
    ensures EmitAll(ParseFrom(front + [g], Emit(h) + EmitAll(rest))) == EmitAll(front + [g]) + (Emit(h) + EmitAll(rest))
    decreases |rest|, 2
  {
    var before, e, r := EmitAll(front + [g]), Emit(h), EmitAll(rest);
    ParseFromAppend(front + [g], e, r);
    ReemitGroups(front', g', rest);
    SeqAssociative(before, e, r);
  }

  /** Rewriting a file settles in one step: what was written is written again
      byte for byte. */
  lemma RewriteIsIdempotent(text: string)
    requires '\r' !in text
    ensures var once := Render(Parse(text)); Render(Parse(once)) == once
  {
    var groups := Parse(text);
    LinesHoldNoBreak(text);
    ParseFromFaithful(NAMELESS, Lines(text));
    EmitAllClean(groups);
    LinesRoundTrip(EmitAll(groups));
    var top := Group("", []);
    ReemitGroups([], top, groups);
    assert [] + [top] == NAMELESS;
    EmitAllOne(top);
    assert [] + EmitAll(groups) == EmitAll(groups);
  }
}
