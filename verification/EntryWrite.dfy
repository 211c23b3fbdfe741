/** One entry replaced on a disk that may lose power at any moment
    (`write_title` in `src/bootentries.rs`): temporary file, sync, rename, sync
    of the directory. */
module EntryWrite {
  import opened Text
  import opened BootEntries

  type Inode = nat

  /** A directory and its files. What is cached is what programs read. Names
      reach the disk when the directory is synced or written back, contents when
      the file is; a file not in `safe` holds anything after a power cut. */
  datatype Disk = Disk(
    names: map<string, Inode>,
    namesOnDisk: map<string, Inode>,
    contents: map<Inode, string>,
    safe: set<Inode>)

  /** How far the writer is. `Writing` has put down that many characters. */
  datatype Place = Start | Writing(count: nat) | Synced | Renamed | Finished | GaveUp

  datatype State = State(disk: Disk, place: Place)

  /** The write of `text` into `entry` by way of `tmp`, with `made` the number
      a file made by the way gets. */
  datatype Job = Job(entry: string, tmp: string, text: string, made: Inode)

  predicate Create(job: Job, s: State, t: State) {
    s.place.Start? && t.place == Writing(0) &&
    if job.tmp in s.disk.names then
      var i := s.disk.names[job.tmp];
      t.disk == s.disk.(contents := s.disk.contents[i := ""], safe := s.disk.safe - {i})
    else
      t.disk == s.disk.(names := s.disk.names[job.tmp := job.made],
                        contents := s.disk.contents[job.made := ""],
                        safe := s.disk.safe - {job.made})
  }

  predicate Append(job: Job, s: State, t: State) {
    s.place.Writing? && s.place.count < |job.text| && job.tmp in s.disk.names &&
    t.place == Writing(s.place.count + 1) &&
    var i := s.disk.names[job.tmp];
    t.disk == s.disk.(contents := s.disk.contents[i := job.text[..s.place.count + 1]], safe := s.disk.safe - {i})
  }

  predicate SyncFile(job: Job, s: State, t: State) {
    s.place == Writing(|job.text|) && job.tmp in s.disk.names &&
    t == State(s.disk.(safe := s.disk.safe + {s.disk.names[job.tmp]}), Synced)
  }

  predicate Rename(job: Job, s: State, t: State) {
    s.place.Synced? && job.tmp in s.disk.names &&
    t == State(s.disk.(names := (s.disk.names - {job.tmp})[job.entry := s.disk.names[job.tmp]]), Renamed)
  }

  predicate SyncDirectory(s: State, t: State) {
    s.place.Renamed? && t == State(s.disk.(namesOnDisk := s.disk.names), Finished)
  }

  /** Any step before the rename may fail; a failed rename may take the
      temporary file away. */
  predicate GiveUp(job: Job, s: State, t: State) {
    !s.place.Renamed? && !s.place.Finished? && t.place.GaveUp? &&
    (t.disk == s.disk || (s.place.Synced? && t.disk == s.disk.(names := s.disk.names - {job.tmp})))
  }

  /** The kernel writes a file or the directory back when it likes. */
  predicate WriteBack(s: State, t: State) {
    t.place == s.place &&
    (t.disk == s.disk.(namesOnDisk := s.disk.names) || WritesFileBack(s.disk, t.disk))
  }

  predicate WritesFileBack(d: Disk, e: Disk) {
    d.safe <= e.safe <= d.safe + d.contents.Keys && e == d.(safe := e.safe)
  }

  predicate Step(job: Job, s: State, t: State) {
    Create(job, s, t) || Append(job, s, t) || SyncFile(job, s, t) || Rename(job, s, t) || SyncDirectory(s, t)
    || GiveUp(job, s, t) || WriteBack(s, t)
  }

  /** A directory at rest whose entry says `body`, with or without a temporary
      file left from before. */
  predicate AtRest(job: Job, s: State, body: string) {
    && s.place.Start? && job.entry != job.tmp
    && Says(s.disk, s.disk.names, job.entry, body) && Says(s.disk, s.disk.namesOnDisk, job.entry, body)
    && Apart(job, s.disk, s.disk.names) && Apart(job, s.disk, s.disk.namesOnDisk)
  }

  /** The name leads to a file that holds the text, cut or no cut. */
  predicate Says(d: Disk, names: map<string, Inode>, name: string, text: string) {
    name in names && names[name] in d.safe && names[name] in d.contents && d.contents[names[name]] == text
  }

  /** The entry's file is neither the temporary one nor the one to be made. */
  predicate Apart(job: Job, d: Disk, names: map<string, Inode>) {
    job.entry in names && names[job.entry] != job.made &&
    (job.tmp in d.names ==> names[job.entry] != d.names[job.tmp])
  }

  predicate IsRun(job: Job, run: seq<State>) {
    run != [] && forall i | 0 <= i < |run| - 1 :: Step(job, run[i], run[i + 1])
  }

  // ----- after a power cut -----

  /** What the entry may say after a power cut: either directory may be the one
      found, and a file that was not safe may hold anything. */
  predicate MaySay(d: Disk, entry: string, found: Option<string>) {
    MaySayBy(d, d.names, entry, found) || MaySayBy(d, d.namesOnDisk, entry, found)
  }

  predicate MaySayBy(d: Disk, names: map<string, Inode>, entry: string, found: Option<string>) {
    if entry !in names then found.None?
    else
      var i := names[entry];
      (i in d.safe && i in d.contents) ==> found == Some(d.contents[i])
  }

  // ----- the invariant -----

  predicate SaysOld(job: Job, d: Disk, names: map<string, Inode>, body: string) {
    Says(d, names, job.entry, body) && Apart(job, d, names)
  }

  predicate OnePlace(job: Job, s: State, body: string) {
    match s.place
    case Start => SaysOld(job, s.disk, s.disk.names, body) && SaysOld(job, s.disk, s.disk.namesOnDisk, body)
    case Writing(count) =>
      && SaysOld(job, s.disk, s.disk.names, body) && SaysOld(job, s.disk, s.disk.namesOnDisk, body)
      && count <= |job.text| && Holds(job, s.disk, job.text[..count])
    case Synced =>
      && SaysOld(job, s.disk, s.disk.names, body) && SaysOld(job, s.disk, s.disk.namesOnDisk, body)
      && Says(s.disk, s.disk.names, job.tmp, job.text)
    case Renamed =>
      && Says(s.disk, s.disk.names, job.entry, job.text)
      && (Says(s.disk, s.disk.namesOnDisk, job.entry, body) || Says(s.disk, s.disk.namesOnDisk, job.entry, job.text))
    case Finished =>
      Says(s.disk, s.disk.names, job.entry, job.text) && Says(s.disk, s.disk.namesOnDisk, job.entry, job.text)
    case GaveUp =>
      Says(s.disk, s.disk.names, job.entry, body) && Says(s.disk, s.disk.namesOnDisk, job.entry, body)
  }

  predicate Holds(job: Job, d: Disk, text: string) {
    job.tmp in d.names && d.names[job.tmp] in d.contents && d.contents[d.names[job.tmp]] == text
  }

  predicate Inv(job: Job, s: State, body: string) { job.entry != job.tmp && OnePlace(job, s, body) }

  lemma StepKeeps(job: Job, s: State, t: State, body: string)
    requires Inv(job, s, body) && Step(job, s, t)
    ensures Inv(job, t, body)
  {
    if Create(job, s, t) {
      assert job.text[..0] == "";
    } else if Append(job, s, t) {
    } else if SyncFile(job, s, t) {
      assert job.text[..|job.text|] == job.text;
    } else if Rename(job, s, t) {
    } else if SyncDirectory(s, t) {
    } else if GiveUp(job, s, t) {
    } else {
      assert WriteBack(s, t);
    }
  }

  lemma {:induction false} RunKeeps(job: Job, run: seq<State>, body: string)
    requires IsRun(job, run) && AtRest(job, run[0], body)
    ensures Inv(job, run[|run| - 1], body)
  {
    if |run| > 1 {
      var before := run[..|run| - 1];
      assert before[0] == run[0];
      RunKeeps(job, before, body);
      StepKeeps(job, run[|run| - 2], run[|run| - 1], body);
    }
  }

  /** At every moment of every run a power cut leaves the entry with its whole
      old text or its whole new one; programs meanwhile read one or the other
      too, and once the write has finished it is the new one for good. */
  lemma PowerCutLeavesAWholeEntry(job: Job, run: seq<State>, body: string, found: Option<string>)
    requires IsRun(job, run) && AtRest(job, run[0], body)
    requires MaySay(run[|run| - 1].disk, job.entry, found)
    ensures found == Some(body) || found == Some(job.text)
    ensures run[|run| - 1].place.Finished? ==> found == Some(job.text)
    ensures run[|run| - 1].place.GaveUp? ==> found == Some(body)
  {
    RunKeeps(job, run, body);
  }

  /** Whichever of the two it is, the lines that decide what the entry boots are
      its own, but for a carriage return left at a line's end. */
  lemma PowerCutKeepsTheBoot(job: Job, run: seq<State>, body: string, title: string, found: Option<string>)
    requires '\n' !in title && job.text == Rewritten(body, title)
    requires IsRun(job, run) && AtRest(job, run[0], body)
    requires MaySay(run[|run| - 1].disk, job.entry, found)
    ensures found.Some?
    ensures var others := OtherLines(Lines(body)); var left := OtherLines(Lines(found.value));
      (left == others || left == DropCrs(others)) && ((forall l <- others :: DropCr(l) == l) ==> left == others)
  {
    PowerCutLeavesAWholeEntry(job, run, body, found);
    RewriteKeepsOthers(body, title);
  }

  /** Without the sync before the rename the entry could come back as anything:
      a state the writer never reaches. */
  lemma RenameNeedsTheSync(job: Job, s: State, body: string)
    requires Inv(job, s, body) && s.place == Writing(|job.text|) && s.disk.names[job.tmp] !in s.disk.safe
    ensures var early := State(s.disk, Synced);
      exists t :: Rename(job, early, t) && forall found: string :: MaySay(t.disk, job.entry, Some(found))
  {
    var early := State(s.disk, Synced);
    var t := State(s.disk.(names := (s.disk.names - {job.tmp})[job.entry := s.disk.names[job.tmp]]), Renamed);
    assert Rename(job, early, t);
    forall found: string ensures MaySay(t.disk, job.entry, Some(found)) {
      assert MaySayBy(t.disk, t.disk.names, job.entry, Some(found));
    }
  }

  // ----- the write can finish -----

  /** How many of its own steps the writer has ahead. */
  function Ahead(job: Job, place: Place): nat {
    match place
    case Start => |job.text| + 4
    case Writing(count) => if count < |job.text| then |job.text| - count + 3 else 3
    case Synced => 2
    case Renamed => 1
    case _ => 0
  }

  lemma GoesOn(job: Job, s: State, body: string) returns (t: State)
    requires Inv(job, s, body) && !s.place.Finished? && !s.place.GaveUp?
    ensures Step(job, s, t) && !t.place.GaveUp? && Ahead(job, t.place) < Ahead(job, s.place)
  {
    var d := s.disk;
    match s.place
    case Start =>
      var i := if job.tmp in d.names then d.names[job.tmp] else job.made;
      var e := d.(contents := d.contents[i := ""], safe := d.safe - {i});
      t := State(if job.tmp in d.names then e else e.(names := d.names[job.tmp := job.made]), Writing(0));
      assert Create(job, s, t);
    case Writing(count) =>
      var i := d.names[job.tmp];
      if count < |job.text| {
        t := State(d.(contents := d.contents[i := job.text[..count + 1]], safe := d.safe - {i}), Writing(count + 1));
        assert Append(job, s, t);
      } else {
        t := State(d.(safe := d.safe + {i}), Synced);
        assert SyncFile(job, s, t);
      }
    case Synced =>
      t := State(d.(names := (d.names - {job.tmp})[job.entry := d.names[job.tmp]]), Renamed);
      assert Rename(job, s, t);
    case Renamed =>
      t := State(d.(namesOnDisk := d.names), Finished);
      assert SyncDirectory(s, t);
  }

  /** However far a write has come without giving up, and whatever was written
      back meanwhile, there is a run on which it finishes. */
  lemma {:induction false} EveryWriteCanFinish(job: Job, run: seq<State>, body: string) returns (whole: seq<State>)
    requires IsRun(job, run) && AtRest(job, run[0], body) && !run[|run| - 1].place.GaveUp?
    ensures IsRun(job, whole) && run <= whole && whole[|whole| - 1].place.Finished?
    decreases Ahead(job, run[|run| - 1].place)
  {
    var last := run[|run| - 1];
    if last.place.Finished? {
      return run;
    }
    RunKeeps(job, run, body);
    var t := GoesOn(job, last, body);
    whole := EveryWriteCanFinish(job, run + [t], body);
  }
}
