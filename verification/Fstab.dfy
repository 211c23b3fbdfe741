/** kuma's block in /etc/fstab (`src/hibernate.rs`): `fstab_lines` appends it,
    `strip_fstab` takes it back out. */
module Fstab {
  import opened Text

  const OPEN := "# >>> kuma hibernate >>>"
  const CLOSE := "# <<< kuma hibernate <<<"

  const MOUNT := "/var/swap"
  const FILE := "/var/swap/swapfile"

  const NOTE_1 := "# The swapfile this machine " + "hibernates into. The kernel " + "finds it"
  const NOTE_2 := "# at resume through the " + "resume= and resume_offset= " + "kernel"
  const NOTE_3 := "# arguments, not through " + "these lines; these are what " + "make it swap"
  const NOTE_4 := "# once the system is up, " + "which is what hibernating " + "into it needs."

  const MOUNT_OPTIONS := "subvol=swap,noatime," + "nodatacow," + "x-systemd.device-timeout=0"
  const SWAP_OPTIONS := "pri=-2," + "x-systemd.requires-mounts-for=" + MOUNT

  function MountLine(uuid: string): string { "UUID=" + (uuid + (" " + MOUNT + " btrfs " + MOUNT_OPTIONS + " 0 0")) }

  const SWAP_LINE := FILE + (" none swap " + SWAP_OPTIONS + " 0 0")

  /** What stands between the markers. */
  function Body(uuid: string): seq<string> { [NOTE_1, NOTE_2, NOTE_3, NOTE_4, MountLine(uuid), SWAP_LINE] }

  function BlockLines(uuid: string): seq<string> { ["", OPEN] + Body(uuid) + [CLOSE] }

  function FstabLines(uuid: string): string { Unlines(BlockLines(uuid)) }

  // ----- stripping -----

  predicate Opens(line: string) { Trim(line) == OPEN }

  predicate Closes(line: string) { Trim(line) == CLOSE }

  /** Empty lines at the end go, except a first line. */
  function DropBlanks(kept: seq<string>): seq<string> {
    if |kept| >= 2 && kept[|kept| - 1] == "" then DropBlanks(kept[..|kept| - 1]) else kept
  }

  function Strip(kept: seq<string>, inside: bool, lines: seq<string>): seq<string>
    decreases |lines|
  {
    if lines == [] then kept
    else if Opens(lines[0]) then Strip(DropBlanks(kept), true, lines[1..])
    else if inside then Strip(kept, !Closes(lines[0]), lines[1..])
    else Strip(kept + [lines[0]], false, lines[1..])
  }

  function StripFstab(text: string): string { Unlines(Strip([], false, Lines(text))) }

  lemma UnlinesSnoc(kept: seq<string>, line: string)
    ensures Unlines(kept + [line]) == Unlines(kept) + (line + "\n")
  {
    UnlinesAppend(kept, [line]);
    UnlinesOne(line);
  }

  /** Taking one line feed off the end of the text is dropping one empty line. */
  lemma LastLineShows(before: string, last: string)
    requires '\n' !in last && Terminated(before)
    ensures var out := before + (last + "\n");
      && (EndsWith(out, "\n\n") <==> last == "" && before != "")
      && (last == "" ==> out[..|out| - 1] == before)
  {
    var out := before + (last + "\n");
    if |out| >= 2 {
      assert out[|out| - 2..] == [out[|out| - 2], '\n'];
      if last != "" {
        assert out[|out| - 2] == last[|last| - 1];
      }
    }
  }

  lemma PopIsDrop(kept: seq<string>)
    requires NoBreaks(kept)
    ensures EndsWith(Unlines(kept), "\n\n") <==> |kept| >= 2 && kept[|kept| - 1] == ""
    ensures kept != [] && kept[|kept| - 1] == "" ==>
      Unlines(kept)[..|Unlines(kept)| - 1] == Unlines(kept[..|kept| - 1])
  {
    if kept != [] {
      var front, last := kept[..|kept| - 1], kept[|kept| - 1];
      assert kept == front + [last];
      assert '\n' !in last by { assert last in kept; }
      UnlinesSnoc(front, last);
      UnlinesTerminated(front);
      LastLineShows(Unlines(front), last);
      assert Unlines(front) != "" <==> front != [];
    }
  }

  method RunStripFstab(text: string) returns (out: string)
    ensures out == StripFstab(text)
  {
    out := "";
    var inside := false;
    ghost var kept: seq<string> := [];
    var lines := Lines(text);
    LinesHoldNoBreak(text);
    for i := 0 to |lines|
      invariant out == Unlines(kept) && NoBreaks(kept)
      invariant Strip(kept, inside, lines[i..]) == Strip([], false, lines)
    {
      var line := lines[i];
      assert lines[i..][0] == line && lines[i..][1..] == lines[i + 1..];
      if Trim(line) == OPEN {
        inside := true;
        ghost var full := kept;
        while EndsWith(out, "\n\n")
          invariant out == Unlines(kept) && NoBreaks(kept)
          invariant DropBlanks(kept) == DropBlanks(full)
          decreases |out|
        {
          PopIsDrop(kept);
          out := out[..|out| - 1];
          kept := kept[..|kept| - 1];
        }
        PopIsDrop(kept);
        assert DropBlanks(kept) == kept;
        continue;
      }
      if inside {
        inside := Trim(line) != CLOSE;
        continue;
      }
      UnlinesSnoc(kept, line);
      out := out + (line + "\n");
      kept := kept + [line];
    }
  }

  // ----- lines and text -----

  predicate NoOpen(lines: seq<string>) { forall l <- lines :: !Opens(l) }

  lemma {:induction false} StripOutside(kept: seq<string>, lines: seq<string>, rest: seq<string>)
    requires NoOpen(lines)
    ensures Strip(kept, false, lines + rest) == Strip(kept + lines, false, rest)
    decreases |lines|
  {
    if lines == [] {
      assert lines + rest == rest && kept + lines == kept;
    } else {
      assert lines[0] in lines && (lines + rest)[1..] == lines[1..] + rest;
      StripOutside(kept + [lines[0]], lines[1..], rest);
      assert kept + [lines[0]] + lines[1..] == kept + lines;
    }
  }

  lemma {:induction false} StripInside(kept: seq<string>, lines: seq<string>, rest: seq<string>)
    requires NoOpen(lines) && forall l <- lines :: !Closes(l)
    ensures Strip(kept, true, lines + rest) == Strip(kept, true, rest)
    decreases |lines|
  {
    if lines == [] {
      assert lines + rest == rest;
    } else {
      assert lines[0] in lines && (lines + rest)[1..] == lines[1..] + rest;
      StripInside(kept, lines[1..], rest);
    }
  }

  lemma {:induction false} DropBlanksKeeps(kept: seq<string>)
    ensures DropBlanks(kept) <= kept
    ensures kept != [] ==> DropBlanks(kept) != []
    ensures DropBlanks(kept) == kept <==> |kept| < 2 || kept[|kept| - 1] != ""
  {
    if |kept| >= 2 && kept[|kept| - 1] == "" {
      DropBlanksKeeps(kept[..|kept| - 1]);
    }
  }

  lemma DropOneBlank(kept: seq<string>)
    requires kept != []
    ensures DropBlanks(kept + [""]) == DropBlanks(kept)
  {
    assert (kept + [""])[..|kept|] == kept;
  }

  /** Nothing in the result opens a block. */
  lemma {:induction false} StripLeavesNoOpen(kept: seq<string>, inside: bool, lines: seq<string>)
    requires NoOpen(kept) && NoBreaks(kept) && NoBreaks(lines)
    ensures NoOpen(Strip(kept, inside, lines)) && NoBreaks(Strip(kept, inside, lines))
    decreases |lines|
  {
    if lines != [] {
      assert lines[0] in lines;
      DropBlanksKeeps(kept);
      assert forall l <- DropBlanks(kept) :: l in kept;
      if Opens(lines[0]) {
        StripLeavesNoOpen(DropBlanks(kept), true, lines[1..]);
      } else if inside {
        StripLeavesNoOpen(kept, !Closes(lines[0]), lines[1..]);
      } else {
        StripLeavesNoOpen(kept + [lines[0]], false, lines[1..]);
      }
    }
  }

  /** A line opens or closes a block exactly when it is the marker, but for
      white space around it. */
  lemma MarkersMean(line: string)
    ensures Opens(line) <==> exists left, right :: Blank(left) && Blank(right) && line == left + OPEN + right
    ensures Closes(line) <==> exists left, right :: Blank(left) && Blank(right) && line == left + CLOSE + right
  {
    TrimMeans(line, OPEN);
    TrimMeans(line, CLOSE);
  }

  // ----- the block kuma writes -----

  /** One line that is neither marker: its third character tells. */
  predicate Plain(line: string) {
    |line| >= 3 && !IsSpace(line[0]) && line[2] != '>' && line[2] != '<' && Clean(line)
  }

  lemma PlainIsNoMarker(line: string)
    requires Plain(line)
    ensures !Opens(line) && !Closes(line)
  {
    var left, right := TrimDecomposes(line);
    var t := Trim(line);
    assert line == t + right;
    assert OPEN[2] == '>' && CLOSE[2] == '<';
    if |t| >= 3 {
      assert t[2] == line[2];
    }
  }

  lemma Markers()
    ensures Opens(OPEN) && !Opens(CLOSE) && Closes(CLOSE) && !Opens("")
  {
    TrimOfTrimmed(OPEN);
    TrimOfTrimmed(CLOSE);
    assert OPEN[2] == '>' && CLOSE[2] == '<';
  }

  lemma CleanAppend(a: string, b: string)
    requires Clean(a) && Clean(b)
    ensures Clean(a + b)
  {}

  lemma PlainAppend(start: string, more: string)
    requires Plain(start) && Clean(more)
    ensures Plain(start + more)
  {}

  /** A line in three pieces. */
  lemma PlainPieces(a: string, b: string, c: string)
    requires Plain(a) && Clean(b) && Clean(c)
    ensures Plain(a + b + c)
  {}

  lemma Note1Starts()
    ensures Plain("# The swapfile this machine ")
  {}

  lemma Note2Starts()
    ensures Plain("# at resume through the ")
  {}

  lemma Note3Starts()
    ensures Plain("# arguments, not through ")
  {}

  lemma Note4Starts()
    ensures Plain("# once the system is up, ")
  {}

  lemma Note1IsPlain()
    ensures Plain(NOTE_1)
  {
    Note1Starts();
    PlainPieces("# The swapfile this machine ", "hibernates into. The kernel ", "finds it");
  }

  lemma Note2IsPlain()
    ensures Plain(NOTE_2)
  {
    Note2Starts();
    PlainPieces("# at resume through the ", "resume= and resume_offset= ", "kernel");
  }

  lemma Note3IsPlain()
    ensures Plain(NOTE_3)
  {
    Note3Starts();
    PlainPieces("# arguments, not through ", "these lines; these are what ", "make it swap");
  }

  lemma Note4IsPlain()
    ensures Plain(NOTE_4)
  {
    Note4Starts();
    PlainPieces("# once the system is up, ", "which is what hibernating ", "into it needs.");
  }

  lemma PathsClean()
    ensures Clean(MOUNT) && Clean(FILE)
  {}

  lemma DeviceTimeoutClean()
    ensures Clean("x-systemd.device-timeout=0")
  {}

  lemma MountOptionsClean()
    ensures Clean(MOUNT_OPTIONS)
  {
    DeviceTimeoutClean();
    CleanAppend("subvol=swap,noatime,", "nodatacow,");
    CleanAppend("subvol=swap,noatime," + "nodatacow,", "x-systemd.device-timeout=0");
  }

  lemma SwapOptionsClean()
    ensures Clean(SWAP_OPTIONS)
  {
    PathsClean();
    CleanAppend("pri=-2,", "x-systemd.requires-mounts-for=");
    CleanAppend("pri=-2," + "x-systemd.requires-mounts-for=", MOUNT);
  }

  lemma CleanFields(a: string, b: string, c: string, d: string, e: string)
    requires Clean(a) && Clean(b) && Clean(c) && Clean(d) && Clean(e)
    ensures Clean(a + b + c + d + e)
  {}

  lemma MountLineIsPlain(uuid: string)
    requires Clean(uuid)
    ensures Plain(MountLine(uuid))
  {
    PathsClean();
    MountOptionsClean();
    CleanFields(" ", MOUNT, " btrfs ", MOUNT_OPTIONS, " 0 0");
    CleanAppend(uuid, " " + MOUNT + " btrfs " + MOUNT_OPTIONS + " 0 0");
    PlainAppend("UUID=", uuid + (" " + MOUNT + " btrfs " + MOUNT_OPTIONS + " 0 0"));
  }

  lemma SwapLineIsPlain()
    ensures Plain(SWAP_LINE)
  {
    PathsClean();
    SwapOptionsClean();
    CleanFields(" none swap ", SWAP_OPTIONS, " 0 0", "", "");
    assert " none swap " + SWAP_OPTIONS + " 0 0" + "" + "" == " none swap " + SWAP_OPTIONS + " 0 0";
    PlainAppend(FILE, " none swap " + SWAP_OPTIONS + " 0 0");
  }

  /** The lines between the markers are no markers, whatever the UUID. */
  lemma BodyIsPlain(uuid: string)
    requires Clean(uuid)
    ensures forall l <- Body(uuid) :: Plain(l)
  {
    Note1IsPlain();
    Note2IsPlain();
    Note3IsPlain();
    Note4IsPlain();
    MountLineIsPlain(uuid);
    SwapLineIsPlain();
    SixPlain(NOTE_1, NOTE_2, NOTE_3, NOTE_4, MountLine(uuid), SWAP_LINE);
  }

  lemma SixPlain(a: string, b: string, c: string, d: string, e: string, f: string)
    requires Plain(a) && Plain(b) && Plain(c) && Plain(d) && Plain(e) && Plain(f)
    ensures forall l <- [a, b, c, d, e, f] :: Plain(l)
  {}

  lemma PlainBody(body: seq<string>)
    requires forall l <- body :: Plain(l)
    ensures NoOpen(body) && (forall l <- body :: !Closes(l)) && (forall l <- body :: Clean(l))
  {
    forall l | l in body ensures !Opens(l) && !Closes(l) {
      PlainIsNoMarker(l);
    }
  }

  lemma BlockReads(uuid: string)
    requires Clean(uuid)
    ensures Lines(FstabLines(uuid)) == BlockLines(uuid)
    ensures FstabLines(uuid)[0] == '\n'
  {
    BodyIsPlain(uuid);
    BlockReadsAround(Body(uuid));
  }

  lemma BlockReadsAround(body: seq<string>)
    requires forall l <- body :: Plain(l)
    ensures var block := ["", OPEN] + body + [CLOSE]; Lines(Unlines(block)) == block && Unlines(block)[0] == '\n'
  {
    PlainBody(body);
    assert Clean(OPEN) && Clean(CLOSE) && Clean("");
    var block := ["", OPEN] + body + [CLOSE];
    AllSurvive(block);
    LinesRoundTrip(block);
    assert block[0] == "";
  }

  /** Stripping walks over a whole block and takes the empty line before it. */
  lemma StripBlock(kept: seq<string>, uuid: string, rest: seq<string>)
    requires Clean(uuid)
    ensures Strip(kept, false, BlockLines(uuid) + rest) == Strip(DropBlanks(kept + [""]), false, rest)
  {
    BodyIsPlain(uuid);
    StripAround(kept, Body(uuid), rest);
  }

  lemma StripAround(kept: seq<string>, body: seq<string>, rest: seq<string>)
    requires forall l <- body :: Plain(l)
    ensures Strip(kept, false, ["", OPEN] + body + [CLOSE] + rest) == Strip(DropBlanks(kept + [""]), false, rest)
  {
    PlainBody(body);
    Markers();
    var dropped, tail := DropBlanks(kept + [""]), [CLOSE] + rest;
    var lines := ["", OPEN] + body + [CLOSE] + rest;
    assert lines[1..] == [OPEN] + (body + tail) && lines[1..][1..] == body + tail;
    StripInside(dropped, body, tail);
    assert tail[1..] == rest;
  }

  // ----- texts and their lines -----

  /** The lines with the carriage returns they came with. */
  function RawLines(text: string): seq<string>
    decreases |text|
  {
    if text == "" then []
    else
      var i := IndexOf(text, '\n');
      if i == |text| then [text] else [text[..i]] + RawLines(text[i + 1..])
  }

  predicate Terminated(text: string) { text == "" || text[|text| - 1] == '\n' }

  /** Terminated lines, carriage returns and all, are the text. */
  lemma FirstLine(text: string, i: nat)
    requires Terminated(text) && text != "" && i <= |text| && '\n' !in text[..i] && (i < |text| ==> text[i] == '\n')
    ensures i < |text| && text == text[..i] + "\n" + text[i + 1..] && Terminated(text[i + 1..])
  {
    assert text[|text| - 1] in text && text[..|text|] == text;
    assert i < |text|;
    var rest := text[i + 1..];
    assert rest != "" ==> rest[|rest| - 1] == text[|text| - 1];
    assert text == text[..i] + [text[i]] + rest;
  }

  lemma {:induction false} RawLinesAreText(text: string)
    requires Terminated(text)
    ensures Unlines(RawLines(text)) == text && NoBreaks(RawLines(text))
    ensures Lines(text) == DropCrs(RawLines(text))
    decreases |text|
  {
    if text != "" {
      var i := IndexOf(text, '\n');
      FirstLine(text, i);
      RawLinesAreText(text[i + 1..]);
      RawLinesStep(text[..i], RawLines(text[i + 1..]));
    }
  }

  lemma RawLinesStep(line: string, rest: seq<string>)
    requires '\n' !in line && NoBreaks(rest)
    ensures Unlines([line] + rest) == line + "\n" + Unlines(rest) && NoBreaks([line] + rest)
    ensures DropCrs([line] + rest) == [DropCr(line)] + DropCrs(rest)
  {
    assert ([line] + rest)[1..] == rest;
  }

  lemma {:induction false} UnlinesTerminated(lines: seq<string>)
    ensures Terminated(Unlines(lines))
  {
    if lines != [] {
      UnlinesTerminated(lines[1..]);
    }
  }

  /** Dropping carriage returns shortens the text, or there are none. */
  lemma {:induction false} DropCrsShortens(lines: seq<string>)
    ensures |Unlines(DropCrs(lines))| <= |Unlines(lines)|
    ensures |Unlines(DropCrs(lines))| == |Unlines(lines)| <==> DropCrs(lines) == lines
    ensures |DropCrs(lines)| == |lines|
  {
    if lines != [] {
      DropCrsShortens(lines[1..]);
    }
  }

  lemma {:induction false} PrefixShortens(a: seq<string>, b: seq<string>)
    requires a <= b
    ensures |Unlines(a)| <= |Unlines(b)|
    ensures |Unlines(a)| == |Unlines(b)| <==> a == b
  {
    assert b == a + b[|a|..];
    UnlinesAppend(a, b[|a|..]);
  }

  lemma {:induction false} DropCrsOpen(lines: seq<string>)
    ensures NoOpen(DropCrs(lines)) <==> NoOpen(lines)
  {
    if lines != [] {
      DropCrsOpen(lines[1..]);
      DropCrTrim(lines[0]);
      assert forall l <- lines :: l == lines[0] || l in lines[1..];
      assert forall l <- DropCrs(lines) :: l == DropCr(lines[0]) || l in DropCrs(lines[1..]);
      assert DropCr(lines[0]) in DropCrs(lines) && forall l <- DropCrs(lines[1..]) :: l in DropCrs(lines);
      assert lines[0] in lines && forall l <- lines[1..] :: l in lines;
    }
  }

  // ----- the theorems -----

  predicate HasCrLf(text: string) { exists i :: 0 <= i < |text| - 1 && text[i] == '\r' && text[i + 1] == '\n' }

  predicate EndsInOneNewline(text: string) {
    Terminated(text) && text != "" && (|text| == 1 || text[|text| - 2] != '\n')
  }

  /** Nothing of kuma's in it, and lines that are written back as read. */
  predicate Ordinary(text: string) {
    NoOpen(Lines(text)) && !HasCrLf(text) && EndsInOneNewline(text)
  }

  lemma {:induction false} CrLfInLines(lines: seq<string>)
    requires NoBreaks(lines)
    ensures HasCrLf(Unlines(lines)) <==> DropCrs(lines) != lines
  {
    if lines != [] {
      var head, rest := lines[0], Unlines(lines[1..]);
      assert head in lines;
      CrLfInLines(lines[1..]);
      CrLfStep(head, rest);
      assert lines == [head] + lines[1..];
    }
  }

  lemma CrLfStep(head: string, rest: string)
    requires '\n' !in head
    ensures HasCrLf(head + "\n" + rest) <==> DropCr(head) != head || HasCrLf(rest)
  {
    var text, n := head + "\n" + rest, |head|;
    assert forall k | 0 <= k < n :: text[k] != '\n' by {
      forall k | 0 <= k < n ensures text[k] != '\n' {
        assert text[k] == head[k] && head[k] in head;
      }
    }
    if HasCrLf(text) {
      var i :| 0 <= i < |text| - 1 && text[i] == '\r' && text[i + 1] == '\n';
      if i > n {
        assert rest[i - n - 1] == '\r' && rest[i - n] == '\n';
      }
    }
    if DropCr(head) != head {
      assert text[n - 1] == '\r' && text[n - 1 + 1] == '\n';
    }
    if HasCrLf(rest) {
      var i :| 0 <= i < |rest| - 1 && rest[i] == '\r' && rest[i + 1] == '\n';
      assert text[n + 1 + i] == '\r' && text[n + 1 + i + 1] == '\n';
    }
  }

  lemma NewlineAtEnd(lines: seq<string>)
    requires NoBreaks(lines)
    ensures EndsInOneNewline(Unlines(lines)) <==> lines != [] && DropBlanks(lines) == lines
  {
    PopIsDrop(lines);
    UnlinesTerminated(lines);
    DropBlanksKeeps(lines);
    var text := Unlines(lines);
    if |text| >= 2 {
      assert text[|text| - 2..] == [text[|text| - 2], text[|text| - 1]];
    }
  }

  lemma StripOrdinaryLines(lines: seq<string>)
    requires NoOpen(lines)
    ensures Strip([], false, lines) == lines
  {
    StripOutside([], lines, []);
    assert lines + [] == lines && [] + lines == lines;
  }

  /** What stripping makes of a text that only the appended block marks. */
  lemma StripAppended(lines: seq<string>, uuid: string)
    requires Clean(uuid) && NoBreaks(lines) && NoOpen(lines) && lines != []
    ensures StripFstab(Unlines(lines) + FstabLines(uuid)) == Unlines(DropBlanks(DropCrs(lines)))
  {
    var read, block := DropCrs(lines), BlockLines(uuid);
    LinesOfRaw(lines, FstabLines(uuid));
    BlockReads(uuid);
    DropCrsOpen(lines);
    DropCrsShortens(lines);
    StripReadAndBlock(read, uuid);
  }

  lemma StripReadAndBlock(read: seq<string>, uuid: string)
    requires Clean(uuid) && NoOpen(read) && read != []
    ensures Strip([], false, read + BlockLines(uuid)) == DropBlanks(read)
  {
    var block := BlockLines(uuid);
    StripOutside([], read, block);
    StripBlock(read, uuid, []);
    DropOneBlank(read);
    assert [] + read == read && block + [] == block;
  }

  /** Hibernate on, then off, leaves no trace: exactly for the texts that hold
      no marker and no CRLF line end and end in exactly one newline. */
  lemma OffUndoesOn(text: string, uuid: string)
    requires Clean(uuid)
    ensures StripFstab(text + FstabLines(uuid)) == text <==> Ordinary(text)
  {
    var kept := Strip([], false, Lines(text + FstabLines(uuid)));
    if Ordinary(text) {
      var lines := RawLines(text);
      RawLinesAreText(text);
      CrLfInLines(lines);
      NewlineAtEnd(lines);
      StripAppended(lines, uuid);
    } else if StripFstab(text + FstabLines(uuid)) == text {
      LinesHoldNoBreak(text + FstabLines(uuid));
      StripLeavesNoOpen([], false, Lines(text + FstabLines(uuid)));
      LinesOfRaw(kept, "");
      assert Unlines(kept) + "" == text && Lines("") == [] && DropCrs(kept) + [] == DropCrs(kept);
      DropCrsOpen(kept);
      UnlinesTerminated(kept);
      UndoneWasOrdinary(text, uuid);
    }
  }

  lemma UndoneWasOrdinary(text: string, uuid: string)
    requires Clean(uuid) && Terminated(text) && NoOpen(Lines(text))
    requires StripFstab(text + FstabLines(uuid)) == text
    ensures Ordinary(text)
  {
    var lines := RawLines(text);
    RawLinesAreText(text);
    DropCrsOpen(lines);
    if lines == [] {
      BlockAlone(uuid);
    } else {
      var read := DropCrs(lines);
      StripAppended(lines, uuid);
      DropBlanksKeeps(read);
      PrefixShortens(DropBlanks(read), read);
      DropCrsShortens(lines);
      CrLfInLines(lines);
      NewlineAtEnd(lines);
    }
  }

  lemma BlockAlone(uuid: string)
    requires Clean(uuid)
    ensures StripFstab("" + FstabLines(uuid)) == "\n"
  {
    BlockReads(uuid);
    assert "" + FstabLines(uuid) == FstabLines(uuid);
    StripBlock([], uuid, []);
    assert BlockLines(uuid) + [] == BlockLines(uuid) && [] + [""] == [""];
    UnlinesOne("");
  }

  /** Stripping twice is stripping once, exactly when the result holds no CRLF
      line end. */
  lemma StripIsIdempotent(text: string)
    ensures StripFstab(StripFstab(text)) == StripFstab(text) <==> !HasCrLf(StripFstab(text))
    ensures '\r' !in text ==> StripFstab(StripFstab(text)) == StripFstab(text)
  {
    var kept := Strip([], false, Lines(text));
    LinesHoldNoBreak(text);
    StripLeavesNoOpen([], false, Lines(text));
    LinesOfRaw(kept, "");
    assert Unlines(kept) + "" == Unlines(kept) && DropCrs(kept) + [] == DropCrs(kept);
    DropCrsOpen(kept);
    StripOrdinaryLines(DropCrs(kept));
    DropCrsShortens(kept);
    CrLfInLines(kept);
    if '\r' !in text {
      StripKeepsClean([], false, Lines(text));
      UnlinesClean(kept);
    }
  }

  lemma {:induction false} StripKeepsClean(kept: seq<string>, inside: bool, lines: seq<string>)
    requires (forall l <- kept :: Clean(l)) && (forall l <- lines :: Clean(l))
    ensures forall l <- Strip(kept, inside, lines) :: Clean(l)
    decreases |lines|
  {
    if lines != [] {
      assert lines[0] in lines;
      DropBlanksKeeps(kept);
      assert forall l <- DropBlanks(kept) :: l in kept;
      if Opens(lines[0]) {
        StripKeepsClean(DropBlanks(kept), true, lines[1..]);
      } else if inside {
        StripKeepsClean(kept, !Closes(lines[0]), lines[1..]);
      } else {
        StripKeepsClean(kept + [lines[0]], false, lines[1..]);
      }
    }
  }

  // ----- any sequence of switching on and off -----

  datatype Switch = On(uuid: string) | Off

  function Apply(text: string, s: Switch): string {
    match s
    case On(uuid) => text + FstabLines(uuid)
    case Off => StripFstab(text)
  }

  function ApplyAll(text: string, switches: seq<Switch>): string {
    if switches == [] then text
    else Apply(ApplyAll(text, switches[..|switches| - 1]), switches[|switches| - 1])
  }

  /** The blocks appended since the last time it was switched off. */
  function Pending(switches: seq<Switch>): seq<string> {
    if switches == [] then []
    else NextPending(Pending(switches[..|switches| - 1]), switches[|switches| - 1])
  }

  function NextPending(uuids: seq<string>, s: Switch): seq<string> {
    match s
    case On(uuid) => uuids + [uuid]
    case Off => []
  }

  function Blocks(uuids: seq<string>): string {
    if uuids == [] then "" else Blocks(uuids[..|uuids| - 1]) + FstabLines(uuids[|uuids| - 1])
  }

  function BlocksLines(uuids: seq<string>): seq<string> {
    if uuids == [] then [] else BlocksLines(uuids[..|uuids| - 1]) + BlockLines(uuids[|uuids| - 1])
  }

  lemma {:induction false} BlocksRead(uuids: seq<string>)
    requires forall u <- uuids :: Clean(u)
    ensures Blocks(uuids) == Unlines(BlocksLines(uuids))
    ensures NoBreaks(BlocksLines(uuids)) && DropCrs(BlocksLines(uuids)) == BlocksLines(uuids)
  {
    if uuids != [] {
      var front, last := uuids[..|uuids| - 1], uuids[|uuids| - 1];
      assert last in uuids;
      assert forall u <- front :: u in uuids;
      BlocksRead(front);
      UnlinesAppend(BlocksLines(front), BlockLines(last));
      BlockReads(last);
      LinesHoldNoBreak(FstabLines(last));
      BodyIsPlain(last);
      DropCrsAppend(BlocksLines(front), BlockLines(last));
      LinesOfRaw(BlockLines(last), "");
      assert FstabLines(last) + "" == FstabLines(last);
      assert DropCrs(BlockLines(last)) + [] == DropCrs(BlockLines(last));
    }
  }

  lemma {:induction false} DropCrsAppend(a: seq<string>, b: seq<string>)
    ensures DropCrs(a + b) == DropCrs(a) + DropCrs(b)
  {
    if a == [] {
      assert a + b == b;
    } else {
      assert (a + b)[1..] == a[1..] + b;
      DropCrsAppend(a[1..], b);
    }
  }

  /** All stacked blocks go at once. */
  lemma {:induction false} StripBlocks(kept: seq<string>, uuids: seq<string>, rest: seq<string>)
    requires (forall u <- uuids :: Clean(u)) && kept != [] && DropBlanks(kept) == kept
    ensures Strip(kept, false, BlocksLines(uuids) + rest) == Strip(kept, false, rest)
  {
    if uuids == [] {
      assert BlocksLines(uuids) + rest == rest;
    } else {
      var front, last := uuids[..|uuids| - 1], uuids[|uuids| - 1];
      assert last in uuids;
      assert forall u <- front :: u in uuids;
      SeqAssociative(BlocksLines(front), BlockLines(last), rest);
      StripBlocks(kept, front, BlockLines(last) + rest);
      StripBlock(kept, last, rest);
      DropOneBlank(kept);
    }
  }

  lemma OffTakesAllBlocks(text: string, uuids: seq<string>)
    requires Ordinary(text) && forall u <- uuids :: Clean(u)
    ensures StripFstab(text + Blocks(uuids)) == text
  {
    var lines, blocks := RawLines(text), BlocksLines(uuids);
    RawLinesAreText(text);
    CrLfInLines(lines);
    NewlineAtEnd(lines);
    BlocksRead(uuids);
    LinesOfRaw(lines, Blocks(uuids));
    LinesOfRaw(blocks, "");
    assert Unlines(blocks) + "" == Blocks(uuids) && DropCrs(blocks) + [] == blocks;
    StripOutside([], lines, blocks);
    assert [] + lines == lines && blocks + [] == blocks;
    StripBlocks(lines, uuids, []);
  }

  predicate CleanSwitch(s: Switch) { s.On? ==> Clean(s.uuid) }

  lemma {:induction false} PendingClean(switches: seq<Switch>)
    requires forall s <- switches :: CleanSwitch(s)
    ensures forall u <- Pending(switches) :: Clean(u)
  {
    if switches != [] {
      var front, last := switches[..|switches| - 1], switches[|switches| - 1];
      assert CleanSwitch(last) by { assert last in switches; }
      forall s | s in front ensures CleanSwitch(s) {
        assert s in switches;
      }
      PendingClean(front);
    }
  }

  lemma PendingOn(text: string, uuids: seq<string>, uuid: string)
    ensures text + Blocks(uuids + [uuid]) == text + Blocks(uuids) + FstabLines(uuid)
  {
    assert (uuids + [uuid])[..|uuids|] == uuids;
    SeqAssociative(text, Blocks(uuids), FstabLines(uuid));
  }

  lemma OneSwitch(text: string, uuids: seq<string>, s: Switch)
    requires Ordinary(text) && forall u <- uuids :: Clean(u)
    ensures Apply(text + Blocks(uuids), s) == text + Blocks(NextPending(uuids, s))
    ensures s.Off? ==> Apply(text + Blocks(uuids), s) == text
  {
    match s
    case On(uuid) => PendingOn(text, uuids, uuid);
    case Off =>
      OffTakesAllBlocks(text, uuids);
      assert text + "" == text;
  }

  lemma FrontIsClean(switches: seq<Switch>)
    requires switches != [] && forall s <- switches :: CleanSwitch(s)
    ensures forall s <- switches[..|switches| - 1] :: CleanSwitch(s)
  {
    forall s | s in switches[..|switches| - 1] ensures CleanSwitch(s) {
      assert s in switches;
    }
  }

  /** However often hibernate is switched on and off, the file is the one it
      started as followed by the blocks still pending; after any `Off` it is
      the original byte for byte. */
  lemma {:induction false} SwitchingLeavesNoTrace(text: string, switches: seq<Switch>)
    requires Ordinary(text) && forall s <- switches :: CleanSwitch(s)
    ensures ApplyAll(text, switches) == text + Blocks(Pending(switches))
    ensures switches != [] && switches[|switches| - 1] == Off ==> ApplyAll(text, switches) == text
  {
    if switches == [] {
      assert text + "" == text;
    } else {
      var front, last := switches[..|switches| - 1], switches[|switches| - 1];
      FrontIsClean(switches);
      SwitchingLeavesNoTrace(text, front);
      PendingClean(front);
      OneSwitch(text, Pending(front), last);
    }
  }

  // ----- what stripping keeps of any text -----

  /** The lines outside every block, an unclosed block reaching to the end. */
  function Outside(inside: bool, lines: seq<string>): seq<string>
    decreases |lines|
  {
    if lines == [] then []
    else if Opens(lines[0]) then Outside(true, lines[1..])
    else if inside then Outside(!Closes(lines[0]), lines[1..])
    else [lines[0]] + Outside(false, lines[1..])
  }

  function Filled(lines: seq<string>): seq<string> {
    if lines == [] then [] else (if lines[0] == "" then [] else [lines[0]]) + Filled(lines[1..])
  }

  lemma {:induction false} FilledAppend(a: seq<string>, b: seq<string>)
    ensures Filled(a + b) == Filled(a) + Filled(b)
  {
    if a == [] {
      assert a + b == b;
    } else {
      assert (a + b)[1..] == a[1..] + b;
      FilledAppend(a[1..], b);
    }
  }

  lemma {:induction false} FilledDropBlanks(kept: seq<string>)
    ensures Filled(DropBlanks(kept)) == Filled(kept)
  {
    if |kept| >= 2 && kept[|kept| - 1] == "" {
      var front := kept[..|kept| - 1];
      FilledDropBlanks(front);
      assert kept == front + [""];
      FilledAppend(front, [""]);
      assert Filled([""][1..]) == [];
    }
  }

  /** Every line outside the blocks that is not empty is kept, in order. */
  lemma {:induction false} StripKeepsFilled(kept: seq<string>, inside: bool, lines: seq<string>)
    ensures Filled(Strip(kept, inside, lines)) == Filled(kept) + Filled(Outside(inside, lines))
    decreases |lines|
  {
    if lines == [] {
      assert Filled(kept) + [] == Filled(kept);
    } else {
      var line, rest := lines[0], lines[1..];
      if Opens(line) {
        FilledDropBlanks(kept);
        StripKeepsFilled(DropBlanks(kept), true, rest);
      } else if inside {
        StripKeepsFilled(kept, !Closes(line), rest);
      } else {
        StripKeepsFilled(kept + [line], false, rest);
        FilledAppend(kept, [line]);
        FilledAppend([line], Outside(false, rest));
        SeqAssociative(Filled(kept), Filled([line]), Filled(Outside(false, rest)));
      }
    }
  }

  // ----- the exact frame -----

  /** Empty lines, if any, and then an open marker. */
  predicate Leads(lines: seq<string>) {
    lines != [] && (Opens(lines[0]) || (lines[0] == "" && Leads(lines[1..])))
  }

  /** What stays: every line outside the blocks, except empty ones that lead up
      to a marker with something before them. */
  function Survive(first: bool, inside: bool, lines: seq<string>): seq<string>
    decreases |lines|
  {
    if lines == [] then []
    else if Opens(lines[0]) then Survive(first, true, lines[1..])
    else if inside then Survive(first, !Closes(lines[0]), lines[1..])
    else if lines[0] == "" && !first && Leads(lines[1..]) then Survive(false, false, lines[1..])
    else [lines[0]] + Survive(false, false, lines[1..])
  }

  lemma DropBlanksSnoc(kept: seq<string>, line: string)
    ensures DropBlanks(kept + [line]) == if kept != [] && line == "" then DropBlanks(kept) else kept + [line]
  {
    assert (kept + [line])[..|kept|] == kept;
  }

  lemma DropBlanksTwice(kept: seq<string>)
    ensures DropBlanks(DropBlanks(kept)) == DropBlanks(kept) && (DropBlanks(kept) == [] <==> kept == [])
  {
    DropBlanksKeeps(kept);
    DropBlanksDone(kept);
  }

  lemma {:induction false} DropBlanksDone(kept: seq<string>)
    ensures DropBlanks(DropBlanks(kept)) == DropBlanks(kept)
  {
    if |kept| >= 2 && kept[|kept| - 1] == "" {
      DropBlanksDone(kept[..|kept| - 1]);
    }
  }

  /** For every text: the strip takes the lines of the blocks, unclosed ones to
      the end, and the empty lines that lead up to a marker, and nothing else. */
  lemma {:induction false} StripIsExact(kept: seq<string>, inside: bool, lines: seq<string>)
    requires inside ==> DropBlanks(kept) == kept
    ensures Strip(kept, inside, lines)
            == (if !inside && Leads(lines) then DropBlanks(kept) else kept) + Survive(kept == [], inside, lines)
    decreases |lines|
  {
    DropBlanksTwice(kept);
    if lines == [] {
      assert kept + [] == kept;
    } else {
      var line, rest := lines[0], lines[1..];
      if Opens(line) {
        StripIsExact(DropBlanks(kept), true, rest);
      } else if inside {
        StripIsExact(kept, !Closes(line), rest);
      } else {
        StripIsExact(kept + [line], false, rest);
        DropBlanksSnoc(kept, line);
        SeqAssociative(kept, [line], Survive(false, false, rest));
      }
    }
  }

  /** What `strip_fstab` leaves of any text. */
  lemma StripLeaves(text: string)
    ensures StripFstab(text) == Unlines(Survive(true, false, Lines(text)))
  {
    StripIsExact([], false, Lines(text));
    assert [] + Survive(true, false, Lines(text)) == Survive(true, false, Lines(text));
  }

  /** An empty line directly before an open marker. */
  predicate BlankBeforeOpen(lines: seq<string>) {
    exists i :: 0 <= i < |lines| - 1 && lines[i] == "" && Opens(lines[i + 1])
  }

  lemma BlankBeforeOpenTail(lines: seq<string>)
    requires lines != [] && !BlankBeforeOpen(lines)
    ensures !BlankBeforeOpen(lines[1..])
    ensures lines[0] == "" && |lines| > 1 ==> !Opens(lines[1])
  {
    var rest := lines[1..];
    forall i | 0 <= i < |rest| - 1 ensures !(rest[i] == "" && Opens(rest[i + 1])) {
      assert !(lines[i + 1] == "" && Opens(lines[i + 2]));
    }
    if |lines| > 1 {
      assert !(lines[0] == "" && Opens(lines[0 + 1]));
    }
  }

  lemma {:induction false} LeadsAtOnce(lines: seq<string>)
    requires !BlankBeforeOpen(lines)
    ensures Leads(lines) <==> lines != [] && Opens(lines[0])
  {
    if lines != [] && !Opens(lines[0]) && lines[0] == "" {
      BlankBeforeOpenTail(lines);
      LeadsAtOnce(lines[1..]);
    }
  }

  lemma {:induction false} SurviveIsOutside(first: bool, inside: bool, lines: seq<string>)
    requires !BlankBeforeOpen(lines)
    ensures Survive(first, inside, lines) == Outside(inside, lines)
    decreases |lines|
  {
    if lines != [] {
      var rest := lines[1..];
      BlankBeforeOpenTail(lines);
      LeadsAtOnce(rest);
      if Opens(lines[0]) {
        SurviveIsOutside(first, true, rest);
      } else if inside {
        SurviveIsOutside(first, !Closes(lines[0]), rest);
      } else {
        SurviveIsOutside(false, false, rest);
      }
    }
  }

  /** In particular, without an empty line directly before a marker the result
      is exactly the lines outside the blocks. */
  lemma StripIsOutside(lines: seq<string>)
    requires !BlankBeforeOpen(lines)
    ensures Strip([], false, lines) == Outside(false, lines)
  {
    StripIsExact([], false, lines);
    SurviveIsOutside(true, false, lines);
    assert [] + Outside(false, lines) == Outside(false, lines);
  }
}
