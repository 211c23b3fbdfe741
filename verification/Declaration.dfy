/** The override tables of a declaration, the keys they ask for, the file the
    image bakes from them, and the reader that runs on the machine. */
module Declaration {
  import opened Text
  import opened Order
  import opened KeyFiles
  import opened KeyFileEdits
  import opened Convergence

  datatype Scope = System | User

  datatype BusPolicy = NoAccess | See | Talk | Own

  function Word(policy: BusPolicy): string {
    match policy
    case NoAccess => "none"
    case See => "see"
    case Talk => "talk"
    case Own => "own"
  }

  /** One application's declared overrides. */
  datatype AppOverride = AppOverride(
    scope: Scope,
    filesystems: seq<string>, sockets: seq<string>, devices: seq<string>,
    shared: seq<string>, features: seq<string>, persistent: seq<string>,
    environment: map<string, string>,
    sessionBus: map<string, BusPolicy>, systemBus: map<string, BusPolicy>)

  const CONTEXT := "Context"
  const ENVIRONMENT := "Environment"
  const SESSION_BUS := "Session Bus Policy"
  const SYSTEM_BUS := "System Bus Policy"

  function ContextLists(app: AppOverride): seq<(string, seq<string>)> {
    [("filesystems", app.filesystems), ("sockets", app.sockets), ("devices", app.devices),
     ("shared", app.shared), ("features", app.features), ("persistent", app.persistent)]
  }

  // ----- the keys a declaration asks for -----

  /** flatpak's list spelling: every item closed by a semicolon. */
  function ListValue(values: seq<string>): string {
    if values == [] then "" else values[0] + ";" + ListValue(values[1..])
  }

  function ListEntries(lists: seq<(string, seq<string>)>): seq<Entry> {
    if lists == [] then []
    else if lists[0].1 == [] then ListEntries(lists[1..])
    else [Entry(CONTEXT, lists[0].0, ListValue(lists[0].1))] + ListEntries(lists[1..])
  }

  function MapEntries(group: string, names: seq<string>, values: map<string, string>): seq<Entry>
    requires forall n <- names :: n in values
  {
    if names == [] then []
    else [Entry(group, names[0], values[names[0]])] + MapEntries(group, names[1..], values)
  }

  function Words(policies: map<string, BusPolicy>): map<string, string> {
    map bus | bus in policies :: Word(policies[bus])
  }

  function TableEntries(group: string, values: map<string, string>): seq<Entry> {
    MapEntries(group, Sorted(values.Keys), values)
  }

  function DeclaredKeys(app: AppOverride): seq<Entry> {
    ListEntries(ContextLists(app)) + TableEntries(ENVIRONMENT, app.environment)
    + TableEntries(SESSION_BUS, Words(app.sessionBus)) + TableEntries(SYSTEM_BUS, Words(app.systemBus))
  }

  // ----- what validation accepts -----

  /** Letters, digits and the listed punctuation, with at least one letter or
      digit, and no leading dash. */
  predicate ValidName(name: string, extra: set<char>) {
    && name != "" && name[0] != '-'
    && (exists c <- name :: IsAlnum(c))
    && (forall c <- name :: IsAlnum(c) || c in extra)
  }

  const LIST_CHARS := {'!', '/', '.', '-', '_', ':', '~', ' '}
  const VARIABLE_CHARS := {'_'}
  const BUS_CHARS := {'.', '-', '_', '*'}

  predicate IsEmpty(app: AppOverride) {
    && (forall l <- ContextLists(app) :: l.1 == [])
    && app.environment == map[] && app.sessionBus == map[] && app.systemBus == map[]
  }

  predicate ValidItems(values: seq<string>) { forall v <- values :: ValidName(v, LIST_CHARS) }

  predicate Valid(app: AppOverride) {
    && !IsEmpty(app)
    && (forall l <- ContextLists(app) :: ValidItems(l.1))
    && (forall n <- app.environment :: ValidName(n, VARIABLE_CHARS) && Clean(app.environment[n]))
    && (forall b <- app.sessionBus :: ValidName(b, BUS_CHARS))
    && (forall b <- app.systemBus :: ValidName(b, BUS_CHARS))
  }

  predicate NoTrailingSpace(value: string) { value == "" || !IsSpace(value[|value| - 1]) }

  predicate ValuesEndWell(app: AppOverride) {
    forall n <- app.environment :: NoTrailingSpace(app.environment[n])
  }

  // ----- the baked file and its reader -----

  /** The lines above a key: a blank one and a header where the group changes. */
  function HeadLines(group: string, current: string, started: bool): seq<string> {
    if group != current then (if started then [""] else []) + ["[" + group + "]"] else []
  }

  function BakedLines(entries: seq<Entry>, current: string, started: bool): seq<string> {
    if entries == [] then []
    else
      var e := entries[0];
      HeadLines(e.group, current, started) + [e.key + "=" + e.value] + BakedLines(entries[1..], e.group, true)
  }

  function Bake(entries: seq<Entry>): string { Unlines(BakedLines(entries, "", false)) }

  function HeadText(group: string, current: string, started: bool): string {
    if group != current then (if started then "\n" else "") + ("[" + group + "]\n") else ""
  }

  function PairText(e: Entry): string { e.key + "=" + e.value + "\n" }

  lemma {:induction false} HeadStep(group: string, current: string, started: bool)
    ensures Unlines(HeadLines(group, current, started)) == HeadText(group, current, started)
  {
    var header := "[" + group + "]";
    UnlinesOne(header);
    assert ([""] + [header])[1..] == [header];
  }

  lemma BakedStep(entries: seq<Entry>, i: nat, current: string, started: bool)
    requires i < |entries|
    ensures Unlines(BakedLines(entries[i..], current, started)) ==
            HeadText(entries[i].group, current, started)
            + (PairText(entries[i]) + Unlines(BakedLines(entries[i + 1..], entries[i].group, true)))
  {
    var e := entries[i];
    assert entries[i..][0] == e && entries[i..][1..] == entries[i + 1..];
    var head, pair := HeadLines(e.group, current, started), [e.key + "=" + e.value];
    var rest := BakedLines(entries[i + 1..], e.group, true);
    SeqAssociative(head, pair, rest);
    UnlinesAppend(head, pair + rest);
    UnlinesAppend(pair, rest);
    UnlinesOne(pair[0]);
    HeadStep(e.group, current, started);
  }

  /** `render`, appending to the text as the keys come. */
  method RenderDeclaration(app: AppOverride) returns (out: string)
    ensures out == Bake(DeclaredKeys(app))
  {
    out := "";
    var current := "";
    var entries := DeclaredKeys(app);
    for i := 0 to |entries|
      invariant out + Unlines(BakedLines(entries[i..], current, out != "")) == Bake(entries)
    {
      BakedStep(entries, i, current, out != "");
      var e := entries[i];
      ghost var before, head := out, HeadText(e.group, current, out != "");
      ghost var rest := Unlines(BakedLines(entries[i + 1..], e.group, true));
      if e.group != current {
        var header := "[" + e.group + "]\n";
        if out != "" {
          SeqAssociative(out, "\n", header);
          out := out + "\n";
        }
        out := out + header;
        current := e.group;
      }
      assert out == before + head;
      out := out + PairText(e);
      SeqAssociative(before, head, PairText(e) + rest);
      SeqAssociative(before + head, PairText(e), rest);
    }
  }

  function PairsIn(name: string, lines: seq<Line>): seq<Entry> {
    if lines == [] then []
    else if lines[0].Pair? then [Entry(name, lines[0].key, lines[0].value)] + PairsIn(name, lines[1..])
    else PairsIn(name, lines[1..])
  }

  function Pairs(groups: seq<Group>): seq<Entry> {
    if groups == [] then []
    else (if groups[0].name == "" then [] else PairsIn(groups[0].name, groups[0].lines)) + Pairs(groups[1..])
  }

  function ParseDeclared(text: string): seq<Entry> { Pairs(Parse(text)) }

  // ----- reading back what was baked -----

  lemma {:induction false} PairsInAppend(name: string, a: seq<Line>, b: seq<Line>)
    ensures PairsIn(name, a + b) == PairsIn(name, a) + PairsIn(name, b)
  {
    if a == [] {
      assert a + b == b;
    } else {
      assert (a + b)[1..] == a[1..] + b;
      PairsInAppend(name, a[1..], b);
    }
  }

  lemma {:induction false} PairsSnoc(front: seq<Group>, g: Group)
    ensures Pairs(front + [g]) == Pairs(front) + (if g.name == "" then [] else PairsIn(g.name, g.lines))
  {
    if front == [] {
      assert front + [g] == [g] && Pairs([g][1..]) == [];
    } else {
      assert (front + [g])[1..] == front[1..] + [g];
      PairsSnoc(front[1..], g);
    }
  }

  /** One more line in the last group adds at most that line's pair. */
  lemma PairsLonger(front: seq<Group>, g: Group, line: Line)
    requires line.Pair? ==> g.name != ""
    ensures Pairs(front + [Group(g.name, g.lines + [line])]) ==
            Pairs(front + [g]) + (if line.Pair? then [Entry(g.name, line.key, line.value)] else [])
  {
    PairsSnoc(front, g);
    PairsSnoc(front, Group(g.name, g.lines + [line]));
    PairsInAppend(g.name, g.lines, [line]);
    assert PairsIn(g.name, [line][1..]) == [];
  }

  lemma ParseOne(front: seq<Group>, g: Group, line: string, rest: seq<string>)
    ensures Read(line).Header? ==>
      ParseFrom(front + [g], [line] + rest) == ParseFrom(front + [g] + [Group(Read(line).name, [])], rest)
    ensures Read(line).Item? ==>
      ParseFrom(front + [g], [line] + rest) == ParseFrom(front + [Group(g.name, g.lines + [Read(line).line])], rest)
  {
    assert ([line] + rest)[1..] == rest;
    assert (front + [g])[..|front|] == front;
  }

  /** The group a key is read into: the current one, or a new one below a blank
      line and its header. */
  lemma ParseHeader(front: seq<Group>, last: Group, group: string, rest: seq<string>)
    requires group != ""
    ensures ParseFrom(front + [last], ["[" + group + "]"] + rest)
            == ParseFrom(front + [last] + [Group(group, [])], rest)
    ensures Pairs(front + [last] + [Group(group, [])]) == Pairs(front + [last])
  {
    ReadHeaderAgain(group);
    ParseOne(front, last, "[" + group + "]", rest);
    PairsSnoc(front + [last], Group(group, []));
  }

  lemma ParseBlank(front: seq<Group>, g: Group, rest: seq<string>)
    ensures ParseFrom(front + [g], [""] + rest) == ParseFrom(front + [Group(g.name, g.lines + [Raw("")])], rest)
  {
    assert Read("") == Item(Raw(""));
    ParseOne(front, g, "", rest);
  }

  lemma ParseHead(front: seq<Group>, g: Group, group: string, started: bool, rest: seq<string>)
    returns (front': seq<Group>, g': Group)
    requires group != ""
    ensures g'.name == group && Pairs(front' + [g']) == Pairs(front + [g])
    ensures ParseFrom(front + [g], HeadLines(group, g.name, started) + rest) == ParseFrom(front' + [g'], rest)
  {
    front', g' := front, g;
    if group == g.name {
      assert [] + rest == rest;
    } else {
      var header := ["[" + group + "]"];
      var last := if started then Group(g.name, g.lines + [Raw("")]) else g;
      if started {
        PairsLonger(front, g, Raw(""));
        ParseBlank(front, g, header + rest);
        SeqAssociative([""], header, rest);
      } else {
        assert [] + header == header;
      }
      ParseHeader(front, last, group, rest);
      front', g' := front + [last], Group(group, []);
    }
  }

  lemma ParseEntry(front: seq<Group>, g: Group, e: Entry, started: bool, rest: seq<string>)
    returns (front': seq<Group>, g': Group)
    requires LegalEntry(e)
    ensures g'.name == e.group && Pairs(front' + [g']) == Pairs(front + [g]) + [e]
    ensures ParseFrom(front + [g], HeadLines(e.group, g.name, started) + ([e.key + "=" + e.value] + rest)) ==
            ParseFrom(front' + [g'], rest)
  {
    var pair := Pair(e.key, e.value);
    assert LineText(pair) == e.key + "=" + e.value;
    var f, h := ParseHead(front, g, e.group, started, [LineText(pair)] + rest);
    ParseOne(f, h, LineText(pair), rest);
    PairsLonger(f, h, pair);
    front', g' := f, Group(h.name, h.lines + [pair]);
  }

  lemma BakedCons(entries: seq<Entry>, current: string, started: bool)
    requires entries != []
    ensures var e := entries[0];
      BakedLines(entries, current, started) ==
      HeadLines(e.group, current, started) + ([e.key + "=" + e.value] + BakedLines(entries[1..], e.group, true))
  {
    var e := entries[0];
    var line := e.key + "=" + e.value;
    SeqAssociative(HeadLines(e.group, current, started), [line], BakedLines(entries[1..], e.group, true));
  }

  lemma {:induction false} BakedParses(front: seq<Group>, g: Group, entries: seq<Entry>, started: bool)
    requires Legal(entries)
    ensures Pairs(ParseFrom(front + [g], BakedLines(entries, g.name, started))) == Pairs(front + [g]) + entries
    decreases |entries|
  {
    if entries != [] {
      var e, rest := entries[0], entries[1..];
      assert LegalEntry(e) && Legal(rest) by { assert e in entries; }
      var before, more := Pairs(front + [g]), BakedLines(rest, e.group, true);
      BakedCons(entries, g.name, started);
      var front', g' := ParseEntry(front, g, e, started, more);
      BakedParses(front', g', rest, true);
      SeqAssociative(before, [e], rest);
      assert [e] + rest == entries;
    }
  }

  /** Legal keys survive the file they are baked into, in order. */
  lemma BakedIsReadBack(entries: seq<Entry>)
    requires Legal(entries)
    ensures ParseDeclared(Bake(entries)) == entries
    ensures '\r' !in Bake(entries)
  {
    var lines := BakedLines(entries, "", false);
    LegalIsClean(entries);
    BakedLinesNoCr(entries, "", false);
    AllSurvive(lines);
    LinesRoundTrip(lines);
    UnlinesClean(lines);
    var top := Group("", []);
    assert [] + [top] == NAMELESS;
    BakedParses([], top, entries, false);
    PairsSnoc([], top);
  }

  lemma {:induction false} PairsInFaithful(name: string, lines: seq<Line>)
    requires forall l <- lines :: FaithfulLine(l)
    ensures forall e <- PairsIn(name, lines) :: e.group == name && FaithfulLine(Pair(e.key, e.value))
  {
    if lines != [] {
      assert lines[0] in lines;
      PairsInFaithful(name, lines[1..]);
    }
  }

  lemma {:induction false} PairsFaithful(groups: seq<Group>)
    requires forall g <- groups :: Faithful(g)
    ensures Legal(Pairs(groups))
  {
    if groups != [] {
      assert groups[0] in groups;
      PairsInFaithful(groups[0].name, groups[0].lines);
      PairsFaithful(groups[1..]);
    }
  }

  /** Whatever the file, the reader hands `converge` legal entries only. */
  lemma ParsedIsLegal(text: string)
    requires '\r' !in text
    ensures Legal(ParseDeclared(text))
  {
    LinesHoldNoBreak(text);
    ParseFromFaithful(NAMELESS, Lines(text));
    PairsFaithful(Parse(text));
  }

  // ----- which declarations are legal entries -----

  lemma {:induction false} ListValueSpelling(values: seq<string>)
    requires ValidItems(values)
    ensures forall c <- ListValue(values) :: IsAlnum(c) || c in LIST_CHARS || c == ';'
    ensures values != [] ==> ListValue(values) != "" && ListValue(values)[|ListValue(values)| - 1] == ';'
  {
    if values != [] {
      assert values[0] in values;
      ListValueSpelling(values[1..]);
    }
  }

  lemma FaithfulEndsWell(key: string, value: string)
    requires FaithfulLine(Pair(key, value))
    ensures NoTrailingSpace(value)
  {
    var t := Trim(key + "=" + value);
    TrimIsTrimmed(key + "=" + value);
    assert value == t[IndexOf(t, '=') + 1..];
  }

  /** A key that starts like a name, with a value that ends well, is one line. */
  lemma NameIsFaithful(key: string, value: string, extra: set<char>)
    requires ValidName(key, extra) && extra <= BUS_CHARS && Clean(value)
    ensures FaithfulLine(Pair(key, value)) <==> NoTrailingSpace(value)
  {
    var line := key + "=" + value;
    assert Clean(line) by {
      assert forall c <- line :: c in key || c == '=' || c in value;
    }
    assert key[0] in key && key[|key| - 1] in key;
    if NoTrailingSpace(value) {
      ReadPair(key, value);
    } else if FaithfulLine(Pair(key, value)) {
      FaithfulEndsWell(key, value);
    }
  }

  lemma ListIsFaithful(key: string, values: seq<string>)
    requires ValidName(key, VARIABLE_CHARS) && values != []
    requires ValidItems(values)
    ensures FaithfulLine(Pair(key, ListValue(values)))
  {
    ListValueSpelling(values);
    assert VARIABLE_CHARS <= BUS_CHARS;
    NameIsFaithful(key, ListValue(values), VARIABLE_CHARS);
  }

  lemma ContextNames()
    ensures forall app, i | 0 <= i < 6 :: ValidName(ContextLists(app)[i].0, VARIABLE_CHARS)
    ensures forall app, i, j | 0 <= i < j < 6 :: ContextLists(app)[i].0 != ContextLists(app)[j].0
  {
    forall app: AppOverride, i | 0 <= i < 6 ensures ValidName(ContextLists(app)[i].0, VARIABLE_CHARS) {
      var name := ContextLists(app)[i].0;
      assert IsAlnum(name[0]) && name[0] in name;
    }
  }

  predicate AllIn(entries: seq<Entry>, groups: set<string>) {
    forall e <- entries :: e.group in groups
  }

  lemma {:induction false} ListEntriesNamed(lists: seq<(string, seq<string>)>, key: string)
    requires forall i | 0 <= i < |lists| :: lists[i].0 != key
    ensures forall e <- ListEntries(lists) :: e.key != key
  {
    if lists != [] {
      ListEntriesNamed(lists[1..], key);
    }
  }

  lemma {:induction false} ListEntriesDistinct(lists: seq<(string, seq<string>)>)
    requires forall i, j | 0 <= i < j < |lists| :: lists[i].0 != lists[j].0
    ensures Distinct(ListEntries(lists)) && AllIn(ListEntries(lists), {CONTEXT})
  {
    if lists != [] {
      ListEntriesDistinct(lists[1..]);
      ListEntriesNamed(lists[1..], lists[0].0);
    }
  }

  lemma {:induction false} ListEntriesLegal(lists: seq<(string, seq<string>)>)
    requires forall i | 0 <= i < |lists| :: ValidName(lists[i].0, VARIABLE_CHARS) && ValidItems(lists[i].1)
    ensures Legal(ListEntries(lists))
  {
    if lists != [] {
      var l, rest := lists[0], lists[1..];
      ListEntriesLegal(rest);
      if l.1 != [] {
        ListIsFaithful(l.0, l.1);
      }
    }
  }

  lemma ContextEntries(app: AppOverride)
    requires Valid(app)
    ensures var e := ListEntries(ContextLists(app)); Legal(e) && Distinct(e) && AllIn(e, {CONTEXT})
  {
    var lists := ContextLists(app);
    ContextNames();
    forall i | 0 <= i < |lists| ensures ValidItems(lists[i].1) {
      assert lists[i] in lists;
    }
    ListEntriesLegal(lists);
    ListEntriesDistinct(lists);
  }

  lemma {:induction false} MapEntriesAre(group: string, names: seq<string>, values: map<string, string>)
    requires forall n <- names :: n in values
    ensures forall e <- MapEntries(group, names, values) ::
      e.group == group && e.key in names && e.key in values && e.value == values[e.key]
    ensures forall n <- names :: Entry(group, n, values[n]) in MapEntries(group, names, values)
    ensures (forall i, j | 0 <= i < j < |names| :: names[i] != names[j]) ==> Distinct(MapEntries(group, names, values))
  {
    if names != [] {
      assert names[0] in names;
      MapEntriesAre(group, names[1..], values);
    }
  }

  lemma TableIsLegal(group: string, values: map<string, string>, extra: set<char>)
    requires group != "" && Clean(group) && extra <= BUS_CHARS
    requires forall n <- values :: ValidName(n, extra) && Clean(values[n])
    ensures Legal(TableEntries(group, values)) <==> forall n <- values :: NoTrailingSpace(values[n])
    ensures Distinct(TableEntries(group, values))
    ensures AllIn(TableEntries(group, values), {group})
  {
    var names := Sorted(values.Keys);
    MapEntriesAre(group, names, values);
    forall n | n in values ensures FaithfulLine(Pair(n, values[n])) <==> NoTrailingSpace(values[n]) {
      NameIsFaithful(n, values[n], extra);
    }
    if Legal(TableEntries(group, values)) {
      forall n | n in values ensures NoTrailingSpace(values[n]) {
        assert n in names;
        assert Entry(group, n, values[n]) in TableEntries(group, values);
      }
    }
  }

  lemma DistinctAppend(a: seq<Entry>, b: seq<Entry>, A: set<string>, B: set<string>)
    requires Distinct(a) && Distinct(b) && AllIn(a, A) && AllIn(b, B) && A !! B
    ensures Distinct(a + b) && AllIn(a + b, A + B)
  {}

  lemma BusEntries(group: string, policies: map<string, BusPolicy>)
    requires group != "" && Clean(group)
    requires forall b <- policies :: ValidName(b, BUS_CHARS)
    ensures var e := TableEntries(group, Words(policies)); Legal(e) && Distinct(e) && AllIn(e, {group})
  {
    forall b | b in policies ensures Clean(Word(policies[b])) && NoTrailingSpace(Word(policies[b])) {
      WordIsClean(policies[b]);
    }
    TableIsLegal(group, Words(policies), BUS_CHARS);
  }

  lemma WordIsClean(policy: BusPolicy)
    ensures Clean(Word(policy)) && NoTrailingSpace(Word(policy))
  {}

  lemma NamesDiffer()
    ensures CONTEXT != ENVIRONMENT && SESSION_BUS != SYSTEM_BUS
    ensures {CONTEXT, ENVIRONMENT} !! {SESSION_BUS, SYSTEM_BUS}
  {
    assert CONTEXT[0] == 'C' && ENVIRONMENT[0] == 'E' && SESSION_BUS[0] == 'S' && SYSTEM_BUS[0] == 'S';
    assert SESSION_BUS[1] == 'e' && SYSTEM_BUS[1] == 'y';
  }

  lemma GroupNames()
    ensures forall g <- [CONTEXT, ENVIRONMENT, SESSION_BUS, SYSTEM_BUS] :: g != "" && Clean(g) && '\t' !in g
    ensures CONTEXT != ENVIRONMENT && SESSION_BUS != SYSTEM_BUS
    ensures {CONTEXT, ENVIRONMENT} !! {SESSION_BUS, SYSTEM_BUS}
  {
    NamesDiffer();
  }

  lemma FourTables(a: seq<Entry>, b: seq<Entry>, c: seq<Entry>, d: seq<Entry>,
                   A: string, B: string, C: string, D: string)
    requires AllIn(a, {A}) && AllIn(b, {B}) && AllIn(c, {C}) && AllIn(d, {D})
    requires A != B && C != D && {A, B} !! {C, D}
    requires Distinct(a) && Distinct(b) && Distinct(c) && Distinct(d)
    ensures Distinct(a + b + c + d) && AllIn(a + b + c + d, {A, B, C, D})
    ensures Legal(a + b + c + d) <==> Legal(a) && Legal(b) && Legal(c) && Legal(d)
  {
    DistinctAppend(a, b, {A}, {B});
    DistinctAppend(a + b, c, {A, B}, {C});
    DistinctAppend(a + b + c, d, {A, B, C}, {D});
    LegalAppend(a, b);
    LegalAppend(a + b, c);
    LegalAppend(a + b + c, d);
  }

  /** A valid declaration asks for no key twice, in four groups only, and its
      entries fit a keyfile exactly when its environment values end well. */
  lemma DeclaredKeysLegal(app: AppOverride)
    requires Valid(app)
    ensures Legal(DeclaredKeys(app)) <==> ValuesEndWell(app)
    ensures Distinct(DeclaredKeys(app))
    ensures AllIn(DeclaredKeys(app), {CONTEXT, ENVIRONMENT, SESSION_BUS, SYSTEM_BUS})
  {
    var lists, env := ListEntries(ContextLists(app)), TableEntries(ENVIRONMENT, app.environment);
    var session := TableEntries(SESSION_BUS, Words(app.sessionBus));
    var system := TableEntries(SYSTEM_BUS, Words(app.systemBus));
    GroupNames();
    ContextEntries(app);
    TableIsLegal(ENVIRONMENT, app.environment, VARIABLE_CHARS);
    BusEntries(SESSION_BUS, app.sessionBus);
    BusEntries(SYSTEM_BUS, app.systemBus);
    FourTables(lists, env, session, system, CONTEXT, ENVIRONMENT, SESSION_BUS, SYSTEM_BUS);
  }

  lemma LegalAppend(a: seq<Entry>, b: seq<Entry>)
    ensures Legal(a + b) <==> Legal(a) && Legal(b)
  {
    if Legal(a + b) {
      assert forall w <- a :: w in a + b;
      assert forall w <- b :: w in a + b;
    }
  }

  /** What the build bakes is what the machine reads, for every valid override
      table, exactly when no environment value ends in white space: the reader
      trims each line, so such a value comes back shorter. */
  lemma BakedDeclarationIsReadBack(app: AppOverride)
    requires Valid(app)
    ensures ParseDeclared(Bake(DeclaredKeys(app))) == DeclaredKeys(app) <==> ValuesEndWell(app)
  {
    DeclaredKeysLegal(app);
    if ValuesEndWell(app) {
      BakedIsReadBack(DeclaredKeys(app));
    } else {
      BakedHasNoCr(app);
      ParsedIsLegal(Bake(DeclaredKeys(app)));
    }
  }

  predicate CleanEntries(entries: seq<Entry>) {
    forall e <- entries :: Clean(e.group) && Clean(e.key) && Clean(e.value)
  }

  const SHORTENED := AppOverride(User, [], [], [], [], [], [], map["A" := "x "], map[], map[])

  lemma ShortenedIsValid()
    ensures Valid(SHORTENED) && !ValuesEndWell(SHORTENED)
  {
    assert "A" in SHORTENED.environment && "A"[0] in "A" && "x "[1] == ' ';
  }

  /** A valid table that is not read back: the value loses its last space. */
  lemma ATrailingSpaceIsLost()
    ensures Valid(SHORTENED) && ParseDeclared(Bake(DeclaredKeys(SHORTENED))) != DeclaredKeys(SHORTENED)
  {
    ShortenedIsValid();
    BakedDeclarationIsReadBack(SHORTENED);
  }

  lemma {:induction false} BakedLinesNoCr(entries: seq<Entry>, current: string, started: bool)
    requires CleanEntries(entries)
    ensures forall l <- BakedLines(entries, current, started) :: Clean(l)
  {
    if entries != [] {
      assert entries[0] in entries;
      BakedLinesNoCr(entries[1..], entries[0].group, true);
    }
  }

  lemma BakedHasNoCr(app: AppOverride)
    requires Valid(app)
    ensures '\r' !in Bake(DeclaredKeys(app))
  {
    DeclaredKeysClean(app);
    BakedLinesNoCr(DeclaredKeys(app), "", false);
    UnlinesClean(BakedLines(DeclaredKeys(app), "", false));
  }

  lemma {:induction false} MapEntriesClean(group: string, names: seq<string>, values: map<string, string>)
    requires Clean(group) && forall n <- names :: n in values && Clean(n) && Clean(values[n])
    ensures CleanEntries(MapEntries(group, names, values))
  {
    if names != [] {
      assert names[0] in names;
      MapEntriesClean(group, names[1..], values);
    }
  }

  lemma VariableIsClean(name: string)
    requires ValidName(name, VARIABLE_CHARS)
    ensures Clean(name)
  {}

  lemma EnvironmentClean(values: map<string, string>)
    requires forall n <- values :: ValidName(n, VARIABLE_CHARS) && Clean(values[n])
    ensures CleanEntries(TableEntries(ENVIRONMENT, values))
  {
    GroupNames();
    forall n | n in Sorted(values.Keys) ensures n in values && Clean(n) && Clean(values[n]) {
      VariableIsClean(n);
    }
    MapEntriesClean(ENVIRONMENT, Sorted(values.Keys), values);
  }

  lemma DeclaredKeysClean(app: AppOverride)
    requires Valid(app)
    ensures CleanEntries(DeclaredKeys(app))
  {
    GroupNames();
    ContextEntries(app);
    LegalIsClean(ListEntries(ContextLists(app)));
    BusEntries(SESSION_BUS, app.sessionBus);
    LegalIsClean(TableEntries(SESSION_BUS, Words(app.sessionBus)));
    BusEntries(SYSTEM_BUS, app.systemBus);
    LegalIsClean(TableEntries(SYSTEM_BUS, Words(app.systemBus)));
    EnvironmentClean(app.environment);
  }

  lemma LegalIsClean(entries: seq<Entry>)
    requires Legal(entries)
    ensures CleanEntries(entries)
  {
    forall e | e in entries ensures Clean(e.group) && Clean(e.key) && Clean(e.value) {
      var text := LineText(Pair(e.key, e.value));
      assert forall c <- e.key :: c in text;
      assert forall c <- e.value :: c in text;
    }
  }

  // ----- the reader against the lookup of a merge -----

  lemma {:induction false} AskedInLines(name: string, lines: seq<Line>, rest: seq<Entry>, group: string, key: string)
    requires UniqueKeys(lines)
    ensures Asked(PairsIn(name, lines) + rest, group, key) ==
            if Asked(rest, group, key).Some? then Asked(rest, group, key)
            else if group == name then FindLine(lines, key) else None
  {
    if lines == [] {
      assert PairsIn(name, lines) + rest == rest;
    } else {
      var more := PairsIn(name, lines[1..]) + rest;
      AskedInLines(name, lines[1..], rest, group, key);
      if lines[0].Pair? {
        assert (PairsIn(name, lines) + rest)[1..] == more;
      }
    }
  }

  lemma {:induction false} AskedElsewhere(groups: seq<Group>, group: string, key: string)
    requires Unique(groups) && group != ""
    ensures Asked(Pairs(groups), group, key) == Find(groups, group, key)
  {
    if groups != [] {
      var g, rest := groups[0], groups[1..];
      assert g in groups;
      UniqueTail(groups);
      AskedElsewhere(rest, group, key);
      if g.name == group {
        assert forall h <- rest :: h.name != group;
        NoSuchGroup(rest, group, key);
      }
      if g.name == "" {
        assert [] + Pairs(rest) == Pairs(rest);
      } else {
        AskedInLines(g.name, g.lines, Pairs(rest), group, key);
        assert Pairs(groups) == PairsIn(g.name, g.lines) + Pairs(rest);
      }
    }
  }

  /** `live_keys`, where a later line wins, and `converge`, which stops at the
      first one, see the same value in a well-formed file. */
  lemma LiveKeysAgree(text: string, group: string, key: string)
    requires WellFormed(text) && group != ""
    ensures Asked(ParseDeclared(text), group, key) == Find(Parse(text), group, key)
  {
    AskedElsewhere(Parse(text), group, key);
  }
}
