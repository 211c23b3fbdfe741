/** The state file of a converge pass: which keys kuma set, one per line as
    application, group and key between tabs. */
module OwnershipRecord {
  import opened Text
  import opened Order
  import opened Convergence

  type Owned = map<string, seq<string>>

  function IdsOf(owned: Owned, app: string): seq<string> { if app in owned then owned[app] else [] }

  function IdLines(app: string, ids: seq<string>): seq<string> {
    if ids == [] then [] else [app + "\t" + ids[0]] + IdLines(app, ids[1..])
  }

  function RecordLines(apps: seq<string>, owned: Owned): seq<string> {
    if apps == [] then [] else IdLines(apps[0], IdsOf(owned, apps[0])) + RecordLines(apps[1..], owned)
  }

  function WriteState(owned: Owned): string { Unlines(RecordLines(Sorted(owned.Keys), owned)) }

  function ReadLine(owned: Owned, line: string): Owned {
    var first := IndexOf(line, '\t');
    if first == |line| then owned
    else
      var app, rest := line[..first], line[first + 1..];
      var second := IndexOf(rest, '\t');
      if second == |rest| then owned
      else owned[app := IdsOf(owned, app) + [OwnedId(rest[..second], rest[second + 1..])]]
  }

  function ReadLines(owned: Owned, lines: seq<string>): Owned
    decreases |lines|
  {
    if lines == [] then owned else ReadLines(ReadLine(owned, lines[0]), lines[1..])
  }

  /** A record that cannot be read is an empty one. */
  function ReadState(record: Option<string>): Owned {
    match record
    case None => map[]
    case Some(text) => ReadLines(map[], Lines(text))
  }

  method LoadState(record: Option<string>) returns (owned: Owned)
    ensures owned == ReadState(record)
  {
    owned := map[];
    if record.None? {
      return;
    }
    var lines := Lines(record.value);
    for i := 0 to |lines|
      invariant ReadLines(owned, lines[i..]) == ReadState(record)
    {
      assert lines[i..][0] == lines[i] && lines[i..][1..] == lines[i + 1..];
      var first := IndexOf(lines[i], '\t');
      if first == |lines[i]| {
        continue;
      }
      var app, rest := lines[i][..first], lines[i][first + 1..];
      var second := IndexOf(rest, '\t');
      if second == |rest| {
        continue;
      }
      owned := owned[app := IdsOf(owned, app) + [OwnedId(rest[..second], rest[second + 1..])]];
    }
  }

  lemma IdLinesStep(app: string, ids: seq<string>, i: nat)
    requires i < |ids|
    ensures Unlines(IdLines(app, ids[i..])) == (app + "\t" + ids[i] + "\n") + Unlines(IdLines(app, ids[i + 1..]))
  {
    assert ids[i..][0] == ids[i] && ids[i..][1..] == ids[i + 1..];
    UnlinesAppend([app + "\t" + ids[i]], IdLines(app, ids[i + 1..]));
    UnlinesOne(app + "\t" + ids[i]);
  }

  lemma RecordLinesStep(apps: seq<string>, owned: Owned, i: nat)
    requires i < |apps|
    ensures Unlines(RecordLines(apps[i..], owned)) ==
            Unlines(IdLines(apps[i], IdsOf(owned, apps[i]))) + Unlines(RecordLines(apps[i + 1..], owned))
  {
    assert apps[i..][0] == apps[i] && apps[i..][1..] == apps[i + 1..];
    UnlinesAppend(IdLines(apps[i], IdsOf(owned, apps[i])), RecordLines(apps[i + 1..], owned));
  }

  method SaveIds(app: string, ids: seq<string>) returns (text: string)
    ensures text == Unlines(IdLines(app, ids))
  {
    text := "";
    for i := 0 to |ids|
      invariant text + Unlines(IdLines(app, ids[i..])) == Unlines(IdLines(app, ids))
    {
      IdLinesStep(app, ids, i);
      var line := app + "\t" + ids[i] + "\n";
      SeqAssociative(text, line, Unlines(IdLines(app, ids[i + 1..])));
      text := text + line;
    }
  }

  method SaveState(owned: Owned) returns (text: string)
    ensures text == WriteState(owned)
  {
    text := "";
    var apps := Sorted(owned.Keys);
    for i := 0 to |apps|
      invariant text + Unlines(RecordLines(apps[i..], owned)) == WriteState(owned)
    {
      RecordLinesStep(apps, owned, i);
      var lines := SaveIds(apps[i], IdsOf(owned, apps[i]));
      SeqAssociative(text, lines, Unlines(RecordLines(apps[i + 1..], owned)));
      text := text + lines;
    }
  }

  /** A record whose lines keep their shape: no tab or line break in an
      application name, one tab and no line break in an id, no empty list. */
  predicate Recordable(owned: Owned) {
    forall app <- owned :: PlainName(app) && owned[app] != [] && PlainIds(owned[app])
  }

  predicate PlainName(app: string) { Clean(app) && '\t' !in app }

  predicate PlainIds(ids: seq<string>) { forall id <- ids :: Clean(id) && SplitId(id).Some? }

  lemma ReadIdLine(owned: Owned, app: string, id: string)
    requires PlainName(app) && SplitId(id).Some?
    ensures ReadLine(owned, app + "\t" + id) == owned[app := IdsOf(owned, app) + [id]]
  {
    var line := app + "\t" + id;
    assert line[..|app|] == app && line[|app| + 1..] == id;
    IndexOfIs(line, '\t', |app|);
    SplitIdIsId(id);
  }

  lemma Overwritten(owned: Owned, app: string, before: seq<string>, more: seq<string>)
    ensures owned[app := before][app := more] == owned[app := more]
    ensures IdsOf(owned[app := before], app) == before
  {}

  lemma ReadIdLineAfter(owned: Owned, app: string, before: seq<string>, id: string)
    requires PlainName(app) && SplitId(id).Some?
    ensures ReadLine(owned[app := before], app + "\t" + id) == owned[app := before + [id]]
  {
    ReadIdLine(owned[app := before], app, id);
    Overwritten(owned, app, before, before + [id]);
  }

  lemma ReadLinesCons(owned: Owned, line: string, lines: seq<string>)
    ensures ReadLines(owned, [line] + lines) == ReadLines(ReadLine(owned, line), lines)
  {
    assert ([line] + lines)[1..] == lines;
  }

  lemma {:induction false} ReadIdLinesAfter(owned: Owned, app: string, before: seq<string>, ids: seq<string>)
    requires PlainName(app) && PlainIds(ids)
    ensures ReadLines(owned[app := before], IdLines(app, ids)) == owned[app := before + ids]
    decreases |ids|
  {
    if ids == [] {
      assert before + ids == before;
    } else {
      var id, rest := ids[0], ids[1..];
      assert SplitId(id).Some? by { assert id in ids; }
      assert before + ids == before + [id] + rest;
      ReadIdLineAfter(owned, app, before, id);
      ReadLinesCons(owned[app := before], app + "\t" + id, IdLines(app, rest));
      ReadIdLinesAfter(owned, app, before + [id], rest);
    }
  }

  lemma ReadIdLines(owned: Owned, app: string, ids: seq<string>)
    requires PlainName(app) && PlainIds(ids) && ids != []
    ensures ReadLines(owned, IdLines(app, ids)) == owned[app := IdsOf(owned, app) + ids]
  {
    var id, rest := ids[0], ids[1..];
    assert SplitId(id).Some? by { assert id in ids; }
    assert IdsOf(owned, app) + ids == IdsOf(owned, app) + [id] + rest;
    ReadIdLine(owned, app, id);
    ReadLinesCons(owned, app + "\t" + id, IdLines(app, rest));
    ReadIdLinesAfter(owned, app, IdsOf(owned, app) + [id], rest);
  }

  lemma {:induction false} ReadAppend(owned: Owned, a: seq<string>, b: seq<string>)
    ensures ReadLines(owned, a + b) == ReadLines(ReadLines(owned, a), b)
    decreases |a|
  {
    if a == [] {
      assert a + b == b;
    } else {
      assert (a + b)[1..] == a[1..] + b;
      ReadAppend(ReadLine(owned, a[0]), a[1..], b);
    }
  }

  function Part(owned: Owned, apps: seq<string>): Owned { map a | a in apps && a in owned :: owned[a] }

  lemma PartCons(before: Owned, owned: Owned, apps: seq<string>)
    requires apps != [] && apps[0] in owned
    ensures before + Part(owned, apps) == before[apps[0] := owned[apps[0]]] + Part(owned, apps[1..])
  {
    assert forall a :: a in apps <==> a == apps[0] || a in apps[1..];
  }

  lemma {:induction false} ReadRecordLines(before: Owned, apps: seq<string>, owned: Owned)
    requires Recordable(owned)
    requires forall a <- apps :: a in owned && a !in before
    requires forall i, j | 0 <= i < j < |apps| :: apps[i] != apps[j]
    ensures ReadLines(before, RecordLines(apps, owned)) == before + Part(owned, apps)
    decreases |apps|
  {
    if apps == [] {
      assert before + Part(owned, apps) == before;
    } else {
      var app, rest := apps[0], apps[1..];
      var ids := owned[app];
      assert app in apps;
      assert PlainName(app) && PlainIds(ids) && ids != [];
      ReadAppend(before, IdLines(app, ids), RecordLines(rest, owned));
      ReadIdLines(before, app, ids);
      assert [] + ids == ids;
      ReadRecordLines(before[app := ids], rest, owned);
      PartCons(before, owned, apps);
    }
  }

  lemma {:induction false} RecordLinesClean(apps: seq<string>, owned: Owned)
    requires Recordable(owned) && forall a <- apps :: a in owned
    ensures forall l <- RecordLines(apps, owned) :: Clean(l)
  {
    if apps != [] {
      assert apps[0] in apps;
      IdLinesClean(apps[0], owned[apps[0]]);
      RecordLinesClean(apps[1..], owned);
    }
  }

  lemma {:induction false} IdLinesClean(app: string, ids: seq<string>)
    requires PlainName(app) && PlainIds(ids)
    ensures forall l <- IdLines(app, ids) :: Clean(l)
  {
    if ids != [] {
      assert ids[0] in ids;
      IdLinesClean(app, ids[1..]);
    }
  }

  lemma PartAll(owned: Owned, apps: seq<string>)
    requires forall a :: a in apps <==> a in owned
    ensures map[] + Part(owned, apps) == owned
  {}

  lemma ReadWritten(owned: Owned, apps: seq<string>)
    requires Recordable(owned)
    requires forall a :: a in apps <==> a in owned
    requires forall i, j | 0 <= i < j < |apps| :: apps[i] != apps[j]
    ensures ReadLines(map[], Lines(Unlines(RecordLines(apps, owned)))) == owned
  {
    RecordLinesClean(apps, owned);
    AllSurvive(RecordLines(apps, owned));
    LinesRoundTrip(RecordLines(apps, owned));
    ReadRecordLines(map[], apps, owned);
    PartAll(owned, apps);
  }

  lemma {:induction false} IdLinesHold(app: string, ids: seq<string>, line: string)
    ensures line in IdLines(app, ids) <==> exists id <- ids :: line == app + "\t" + id
  {
    if ids != [] {
      IdLinesHold(app, ids[1..], line);
      assert ids == [ids[0]] + ids[1..];
    }
  }

  lemma {:induction false} RecordLinesHold(apps: seq<string>, owned: Owned, line: string)
    requires forall a <- apps :: a in owned
    ensures line in RecordLines(apps, owned) <==>
      exists app, id :: app in apps && id in owned[app] && line == app + "\t" + id
  {
    if apps != [] {
      assert apps[0] in apps;
      IdLinesHold(apps[0], owned[apps[0]], line);
      RecordLinesHold(apps[1..], owned, line);
      assert apps == [apps[0]] + apps[1..];
    }
  }

  /** A line of the state file is an application, a tab and an id it owns: the
      group, a tab and the key. */
  lemma RecordSays(owned: Owned, line: string)
    requires Recordable(owned)
    ensures line in Lines(WriteState(owned)) <==>
      exists app, id :: app in owned && id in owned[app] && line == app + "\t" + id
  {
    var apps := Sorted(owned.Keys);
    RecordLinesClean(apps, owned);
    AllSurvive(RecordLines(apps, owned));
    LinesRoundTrip(RecordLines(apps, owned));
    RecordLinesHold(apps, owned, line);
  }

  /** The state file survives a round trip. */
  lemma StateRoundTrip(owned: Owned)
    requires Recordable(owned)
    ensures ReadState(Some(WriteState(owned))) == owned
  {
    ReadWritten(owned, Sorted(owned.Keys));
  }
}
