/** The pass over the boot entries (`stale` and `apply` in
    `src/bootentries.rs`), on a directory where any write may fail. */
module BootPass {
  import opened Text
  import opened Order
  import opened BootEntries

  /** A directory: what each file says, `None` where it cannot be read. */
  type Files = map<string, Option<string>>

  const SUFFIX := ".conf"

  /** `Path::extension` is `conf`. */
  predicate IsConf(name: string) { |name| > |SUFFIX| && EndsWith(name, SUFFIX) }

  function ConfFiles(files: Files): seq<string> { Sorted(set name <- files | IsConf(name)) }

  function Temporary(name: string): string { "." + name + ".kuma" }

  lemma TemporaryIsNoEntry(name: string)
    ensures !IsConf(Temporary(name))
  {
    var t := Temporary(name);
    assert t[|t| - |SUFFIX|..][|SUFFIX| - 1] == t[|t| - 1] == 'a';
    assert SUFFIX[|SUFFIX| - 1] == 'f';
  }

  datatype Retitle = Retitle(entry: string, titles: Titles)

  predicate StaleEntry(files: Files, name: string, roots: Releases) {
    name in files && files[name].Some? && IsStale(Lines(files[name].value), roots)
  }

  function RetitleOf(files: Files, name: string, roots: Releases): Retitle
    requires StaleEntry(files, name, roots)
  {
    Retitle(name, Wanted(Lines(files[name].value), roots).value)
  }

  function StaleAmong(files: Files, names: seq<string>, roots: Releases): seq<Retitle> {
    if names == [] then []
    else
      (if StaleEntry(files, names[0], roots) then [RetitleOf(files, names[0], roots)] else [])
      + StaleAmong(files, names[1..], roots)
  }

  /** Every entry whose title disagrees with the deployment it boots. */
  function Stale(files: Files, roots: Releases): seq<Retitle> { StaleAmong(files, ConfFiles(files), roots) }

  /** How writing one entry ends: done, or failed with the temporary file never
      made, taken back, or left with some text. */
  datatype Outcome = Done | NeverMade | TakenBack | LeftBehind(partial: Option<string>)

  function WriteTitle(files: Files, r: Retitle, outcome: Outcome): Files {
    if r.entry !in files || files[r.entry].None? then files
    else
      var tmp := Temporary(r.entry);
      match outcome
      case Done => (files - {tmp})[r.entry := Some(Rewritten(files[r.entry].value, r.titles.to))]
      case NeverMade => files
      case TakenBack => files - {tmp}
      case LeftBehind(partial) => files[tmp := partial]
  }

  function OutcomeOf(outcomes: map<string, Outcome>, name: string): Outcome {
    if name in outcomes then outcomes[name] else Done
  }

  predicate Readable(files: Files, stale: seq<Retitle>) {
    forall r <- stale :: r.entry in files && files[r.entry].Some? && IsConf(r.entry)
  }

  lemma WriteKeepsReadable(files: Files, r: Retitle, outcome: Outcome, stale: seq<Retitle>)
    requires r.entry in files && files[r.entry].Some? && Readable(files, stale)
    ensures Readable(WriteTitle(files, r, outcome), stale)
  {
    TemporaryIsNoEntry(r.entry);
  }

  function Written(files: Files, stale: seq<Retitle>, outcomes: map<string, Outcome>): Files
    decreases |stale|
  {
    if stale == [] then files
    else Written(WriteTitle(files, stale[0], OutcomeOf(outcomes, stale[0].entry)), stale[1..], outcomes)
  }

  lemma WrittenUnfolds(files: Files, r: Retitle, rest: seq<Retitle>, outcomes: map<string, Outcome>)
    ensures Written(files, [r] + rest, outcomes)
            == Written(WriteTitle(files, r, OutcomeOf(outcomes, r.entry)), rest, outcomes)
  {
    assert ([r] + rest)[1..] == rest;
  }

  function Failures(stale: seq<Retitle>, outcomes: map<string, Outcome>): seq<Retitle> {
    if stale == [] then []
    else (if OutcomeOf(outcomes, stale[0].entry).Done? then [] else [stale[0]]) + Failures(stale[1..], outcomes)
  }

  /** What `apply` reports: what moved, or the first entry that would not. */
  datatype Report = Moved(titles: seq<Retitle>) | Failed(first: string)

  class BootDirectory {
    var files: Files

    constructor (files: Files)
      ensures this.files == files
    {
      this.files := files;
    }

    method Write(r: Retitle, outcome: Outcome)
      requires r.entry in files && files[r.entry].Some?
      modifies this
      ensures files == WriteTitle(old(files), r, outcome)
    {
      var tmp := Temporary(r.entry);
      if outcome.NeverMade? {
        return;
      }
      var body := files[r.entry].value;
      var out := WriteOut(body, r.titles.to);
      match outcome {
        case Done => files := (files - {tmp})[r.entry := Some(out)];
        case TakenBack => files := files - {tmp};
        case LeftBehind(partial) => files := files[tmp := partial];
      }
    }

    method WriteAll(stale: seq<Retitle>, outcomes: map<string, Outcome>) returns (report: Report)
      requires Readable(files, stale)
      modifies this
      ensures files == Written(old(files), stale, outcomes)
      ensures report == Reported(stale, outcomes, [], None)
    {
      var moved, failed := [], None;
      for i := 0 to |stale|
        invariant Readable(files, stale[i..])
        invariant Written(files, stale[i..], outcomes) == Written(old(files), stale, outcomes)
        invariant Reported(stale[i..], outcomes, moved, failed) == Reported(stale, outcomes, [], None)
      {
        var r, rest := stale[i], stale[i + 1..];
        assert stale[i..] == [r] + rest;
        var o := OutcomeOf(outcomes, r.entry);
        WrittenUnfolds(files, r, rest, outcomes);
        ReportedUnfolds(r, rest, outcomes, moved, failed);
        WriteKeepsReadable(files, r, o, rest);
        Write(r, o);
        if o.Done? {
          moved := moved + [r];
        } else if failed.None? {
          failed := Some(r.entry);
        }
      }
      assert stale[|stale|..] == [];
      report := match failed case Some(name) => Failed(name) case None => Moved(moved);
    }

    method Apply(roots: Releases, outcomes: map<string, Outcome>) returns (report: Report)
      modifies this
      ensures files == AfterPass(old(files), roots, outcomes)
      ensures report == ReportOf(Stale(old(files), roots), outcomes)
    {
      var stale := Stale(files, roots);
      StaleIsReadable(files, ConfFiles(files), roots);
      ReportIs(stale, outcomes, [], None);
      assert [] + stale == stale;
      report := WriteAll(stale, outcomes);
    }
  }

  /** Everything stale, or the first entry that could not be written. */
  function ReportOf(stale: seq<Retitle>, outcomes: map<string, Outcome>): Report {
    if Failures(stale, outcomes) == [] then Moved(stale) else Failed(Failures(stale, outcomes)[0].entry)
  }

  /** The report as the pass builds it, from what moved and failed so far. */
  function Reported(stale: seq<Retitle>, outcomes: map<string, Outcome>, moved: seq<Retitle>,
                    failed: Option<string>): Report
    decreases |stale|
  {
    if stale == [] then match failed case Some(name) => Failed(name) case None => Moved(moved)
    else if OutcomeOf(outcomes, stale[0].entry).Done? then Reported(stale[1..], outcomes, moved + [stale[0]], failed)
    else Reported(stale[1..], outcomes, moved, if failed.None? then Some(stale[0].entry) else failed)
  }

  lemma ReportedUnfolds(r: Retitle, rest: seq<Retitle>, outcomes: map<string, Outcome>, moved: seq<Retitle>,
                        failed: Option<string>)
    ensures Reported([r] + rest, outcomes, moved, failed)
            == if OutcomeOf(outcomes, r.entry).Done? then Reported(rest, outcomes, moved + [r], failed)
               else Reported(rest, outcomes, moved, if failed.None? then Some(r.entry) else failed)
  {
    assert ([r] + rest)[1..] == rest;
  }

  /** It names the first entry that failed, or everything that moved. */
  lemma {:induction false} ReportIs(stale: seq<Retitle>, outcomes: map<string, Outcome>, moved: seq<Retitle>,
                                    failed: Option<string>)
    ensures Reported(stale, outcomes, moved, failed)
            == if failed.Some? then Failed(failed.value)
               else if Failures(stale, outcomes) != [] then Failed(Failures(stale, outcomes)[0].entry)
               else Moved(moved + stale)
    decreases |stale|
  {
    if stale != [] {
      var o := OutcomeOf(outcomes, stale[0].entry);
      if o.Done? {
        ReportIs(stale[1..], outcomes, moved + [stale[0]], failed);
        assert moved + [stale[0]] + stale[1..] == moved + stale;
      } else {
        ReportIs(stale[1..], outcomes, moved, if failed.None? then Some(stale[0].entry) else failed);
      }
    } else {
      assert moved + stale == moved;
    }
  }

  lemma SplitFailures(r: Retitle, rest: seq<Retitle>, outcomes: map<string, Outcome>)
    ensures Failures([r] + rest, outcomes)
            == (if OutcomeOf(outcomes, r.entry).Done? then [] else [r]) + Failures(rest, outcomes)
  {
    assert ([r] + rest)[1..] == rest;
  }

  // ----- what the pass does -----

  lemma {:induction false} StaleAmongIs(files: Files, names: seq<string>, roots: Releases)
    ensures forall r <- StaleAmong(files, names, roots) ::
              r.entry in names && StaleEntry(files, r.entry, roots) && r == RetitleOf(files, r.entry, roots)
    ensures forall name <- names | StaleEntry(files, name, roots) ::
              RetitleOf(files, name, roots) in StaleAmong(files, names, roots)
  {
    if names != [] {
      StaleAmongIs(files, names[1..], roots);
    }
  }

  lemma StaleIsReadable(files: Files, names: seq<string>, roots: Releases)
    requires forall name <- names :: IsConf(name)
    ensures Readable(files, StaleAmong(files, names, roots))
  {
    StaleAmongIs(files, names, roots);
  }

  predicate Distinct(stale: seq<Retitle>) {
    forall i, j | 0 <= i < j < |stale| :: stale[i].entry != stale[j].entry
  }

  lemma {:induction false} StaleAreDistinct(files: Files, names: seq<string>, roots: Releases)
    requires forall i, j | 0 <= i < j < |names| :: names[i] != names[j]
    ensures Distinct(StaleAmong(files, names, roots))
  {
    if names != [] {
      StaleAreDistinct(files, names[1..], roots);
      StaleAmongIs(files, names[1..], roots);
    }
  }

  lemma WriteIs(files: Files, r: Retitle, outcome: Outcome, name: string)
    requires IsConf(name)
    ensures var after := WriteTitle(files, r, outcome);
      && (name in after <==> name in files)
      && (name in files && (r.entry != name || !outcome.Done?) ==> after[name] == files[name])
      && (name in files && files[name].Some? && r.entry == name && outcome.Done? ==>
            after[name] == Some(Rewritten(files[name].value, r.titles.to)))
  {
    TemporaryIsNoEntry(r.entry);
  }

  /** An entry is as it was unless its own write succeeded. */
  lemma {:induction false} WrittenElsewhere(files: Files, stale: seq<Retitle>, outcomes: map<string, Outcome>,
                                            name: string)
    requires IsConf(name)
    requires OutcomeOf(outcomes, name).Done? ==> forall r <- stale :: r.entry != name
    ensures var after := Written(files, stale, outcomes);
      (name in after <==> name in files) && (name in files ==> after[name] == files[name])
    decreases |stale|
  {
    if stale != [] {
      var o := OutcomeOf(outcomes, stale[0].entry);
      WriteIs(files, stale[0], o, name);
      assert stale[0] in stale;
      WrittenElsewhere(WriteTitle(files, stale[0], o), stale[1..], outcomes, name);
    }
  }

  lemma {:induction false} WrittenThere(files: Files, stale: seq<Retitle>, outcomes: map<string, Outcome>, r: Retitle)
    requires r in stale && Distinct(stale) && IsConf(r.entry) && OutcomeOf(outcomes, r.entry).Done?
    requires r.entry in files && files[r.entry].Some?
    ensures var after := Written(files, stale, outcomes);
      r.entry in after && after[r.entry] == Some(Rewritten(files[r.entry].value, r.titles.to))
    decreases |stale|
  {
    var o := OutcomeOf(outcomes, stale[0].entry);
    WriteIs(files, stale[0], o, r.entry);
    if stale[0] == r {
      WrittenElsewhere(WriteTitle(files, r, o), stale[1..], outcomes, r.entry);
    } else {
      WrittenThere(WriteTitle(files, stale[0], o), stale[1..], outcomes, r);
    }
  }

  /** Whether the entry's title settles when it is written once. */
  predicate EntrySettles(files: Files, name: string, roots: Releases)
    requires StaleEntry(files, name, roots)
  {
    var lines := Lines(files[name].value);
    RewriteSettles(files[name].value, roots);
    var (karg, pretty) := Boots(lines, roots).value;
    Settles(Wanted(lines, roots).value.from, karg, pretty)
  }

  function AfterPass(files: Files, roots: Releases, outcomes: map<string, Outcome>): Files {
    Written(files, Stale(files, roots), outcomes)
  }

  lemma StaleMeans(files: Files, roots: Releases, name: string)
    requires IsConf(name)
    ensures StaleEntry(files, name, roots) <==> exists r :: r in Stale(files, roots) && r.entry == name
    ensures StaleEntry(files, name, roots) ==> RetitleOf(files, name, roots) in Stale(files, roots)
    ensures Distinct(Stale(files, roots))
  {
    StaleAmongIs(files, ConfFiles(files), roots);
    StaleAreDistinct(files, ConfFiles(files), roots);
  }

  /** What the pass is about: every readable `.conf` file with a title wanted
      that is not the one it has. */
  lemma StaleIs(files: Files, roots: Releases, r: Retitle)
    ensures r in Stale(files, roots) <==>
      && (exists stem :: stem != "" && r.entry == stem + ".conf")
      && r.entry in files && files[r.entry].Some?
      && Wanted(Lines(files[r.entry].value), roots) == Some(r.titles) && r.titles.from != r.titles.to
  {
    StaleAmongIs(files, ConfFiles(files), roots);
    ConfMeans(r.entry);
    assert r.entry in ConfFiles(files) <==> r.entry in files && IsConf(r.entry);
    if StaleEntry(files, r.entry, roots) && Wanted(Lines(files[r.entry].value), roots) == Some(r.titles) {
      assert r == RetitleOf(files, r.entry, roots);
    }
  }

  lemma ConfMeans(name: string)
    ensures IsConf(name) <==> exists stem :: stem != "" && name == stem + ".conf"
  {
    if IsConf(name) {
      assert name == name[..|name| - |SUFFIX|] + SUFFIX;
    }
    if stem :| stem != "" && name == stem + ".conf" {
      assert name[|name| - |SUFFIX|..] == SUFFIX;
    }
  }

  /** Every other file is left alone, but for the temporary ones. */
  lemma {:induction false} OthersStay(files: Files, stale: seq<Retitle>, outcomes: map<string, Outcome>, name: string)
    requires forall r <- stale :: name != r.entry && name != "." + r.entry + ".kuma"
    ensures var after := Written(files, stale, outcomes);
      (name in after <==> name in files) && (name in files ==> after[name] == files[name])
    decreases |stale|
  {
    if stale != [] {
      assert stale[0] in stale;
      OthersStay(WriteTitle(files, stale[0], OutcomeOf(outcomes, stale[0].entry)), stale[1..], outcomes, name);
    }
  }

  /** What one pass makes of any entry. */
  lemma PassOn(files: Files, roots: Releases, outcomes: map<string, Outcome>, name: string)
    requires IsConf(name)
    ensures var after := AfterPass(files, roots, outcomes);
      && (name in after <==> name in files)
      && (name in files && !(StaleEntry(files, name, roots) && OutcomeOf(outcomes, name).Done?) ==>
            after[name] == files[name])
      && (StaleEntry(files, name, roots) && OutcomeOf(outcomes, name).Done? ==>
            after[name] == Some(Rewritten(files[name].value, RetitleOf(files, name, roots).titles.to)))
  {
    StaleMeans(files, roots, name);
    var stale := Stale(files, roots);
    if StaleEntry(files, name, roots) && OutcomeOf(outcomes, name).Done? {
      WrittenThere(files, stale, outcomes, RetitleOf(files, name, roots));
    } else {
      WrittenElsewhere(files, stale, outcomes, name);
    }
  }

  /** After a pass an entry is stale exactly when it was stale before and its
      write failed or its title could not settle. */
  lemma PassLeavesStale(files: Files, roots: Releases, outcomes: map<string, Outcome>, name: string)
    requires IsConf(name)
    ensures StaleEntry(AfterPass(files, roots, outcomes), name, roots) <==>
              StaleEntry(files, name, roots) && (OutcomeOf(outcomes, name).Done? ==> !EntrySettles(files, name, roots))
  {
    PassOn(files, roots, outcomes, name);
    if StaleEntry(files, name, roots) {
      RewriteSettles(files[name].value, roots);
    }
  }

  /** The pass neither adds nor removes an entry. */
  lemma PassKeepsEntries(files: Files, roots: Releases, outcomes: map<string, Outcome>)
    ensures ConfFiles(AfterPass(files, roots, outcomes)) == ConfFiles(files)
  {
    var after := AfterPass(files, roots, outcomes);
    forall name | IsConf(name) ensures name in after <==> name in files {
      PassOn(files, roots, outcomes, name);
    }
    assert (set name <- after | IsConf(name)) == (set name <- files | IsConf(name));
  }

  predicate AllSettle(files: Files, roots: Releases) {
    forall name <- files | IsConf(name) && StaleEntry(files, name, roots) :: EntrySettles(files, name, roots)
  }

  /** Where every title settles, the second pass is about exactly the entries
      the first could not write, in the same order and with the same titles. */
  lemma SecondPassRetries(files: Files, roots: Releases, outcomes: map<string, Outcome>)
    requires AllSettle(files, roots)
    ensures Stale(AfterPass(files, roots, outcomes), roots) == Failures(Stale(files, roots), outcomes)
  {
    PassKeepsEntries(files, roots, outcomes);
    RetriesAmong(files, AfterPass(files, roots, outcomes), ConfFiles(files), roots, outcomes);
  }

  lemma {:induction false} RetriesAmong(files: Files, after: Files, names: seq<string>, roots: Releases,
                                        outcomes: map<string, Outcome>)
    requires AllSettle(files, roots) && after == AfterPass(files, roots, outcomes)
    requires forall name <- names :: IsConf(name)
    ensures StaleAmong(after, names, roots) == Failures(StaleAmong(files, names, roots), outcomes)
    decreases |names|
  {
    if names != [] {
      var name := names[0];
      PassLeavesStale(files, roots, outcomes, name);
      PassOn(files, roots, outcomes, name);
      RetriesAmong(files, after, names[1..], roots, outcomes);
      var before, later := StaleAmong(files, names[1..], roots), StaleAmong(after, names[1..], roots);
      if StaleEntry(files, name, roots) {
        var r := RetitleOf(files, name, roots);
        SplitFailures(r, before, outcomes);
        assert StaleAmong(files, names, roots) == [r] + before;
        assert [] + later == later;
      } else {
        assert StaleAmong(files, names, roots) == before && StaleAmong(after, names, roots) == later;
      }
    }
  }
}
