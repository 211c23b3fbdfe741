/** The boot menu's titles (`src/bootentries.rs`): reading an entry of the Boot
    Loader Specification, what its title should say, and the pass that makes
    it say so. */
module BootEntries {
  import opened Text
  import opened Timestamp
  import KernelArgs

  // ----- fields -----

  const TITLE := "title"
  const OPTIONS := "options"

  /** A key, then white space: a key alone on its line is no field. */
  predicate IsField(line: string, key: string) {
    var s := TrimStart(line);
    key <= s && |key| < |s| && IsSpace(s[|key|])
  }

  function FieldValue(line: string, key: string): string
    requires IsField(line, key)
  {
    Trim(TrimStart(line)[|key|..])
  }

  /** The value of the first line that is such a field. */
  function Field(lines: seq<string>, key: string): Option<string> {
    if lines == [] then None
    else if IsField(lines[0], key) then Some(FieldValue(lines[0], key))
    else Field(lines[1..], key)
  }

  const KARG := "ostree="

  function FirstKarg(words: seq<string>): Option<string> {
    if words == [] then None
    else if StartsWith(words[0], KARG) then Some(words[0][|KARG|..])
    else FirstKarg(words[1..])
  }

  function OstreeKarg(options: string): Option<string> { FirstKarg(KernelArgs.Words(options)) }

  const U32_MAX := 0xFFFF_FFFF

  function ParseU32(s: string): Option<nat> {
    var n := KernelArgs.ParseU64(s);
    if n.Some? && n.value <= U32_MAX then n else None
  }

  /** The index after the karg's last slash. */
  function KargIndex(karg: string): Option<nat> { ParseU32(AfterLastSlash(karg)) }

  // ----- names -----

  function Unquote(value: string, q: char): Option<string> {
    if |value| >= 2 && value[0] == q && value[|value| - 1] == q then Some(value[1..|value| - 1]) else None
  }

  const PRETTY := "PRETTY_NAME="

  function PrettyOf(value: string): Option<string> {
    var inner :=
      if Unquote(value, '"').Some? then Unquote(value, '"').value
      else if Unquote(value, '\'').Some? then Unquote(value, '\'').value
      else value;
    if inner == "" then None else Some(inner)
  }

  /** The first line that names one decides, even when it names nothing. */
  function PrettyName(lines: seq<string>): Option<string> {
    if lines == [] then None
    else if StartsWith(Trim(lines[0]), PRETTY) then PrettyOf(Trim(Trim(lines[0])[|PRETTY|..]))
    else PrettyName(lines[1..])
  }

  /** The two os-release files of a deployment, where they can be read. */
  datatype Release = Release(usr: Option<string>, etc: Option<string>)

  type Releases = map<string, Release>

  function NameIn(file: Option<string>): Option<string> {
    match file
    case Some(text) => PrettyName(Lines(text))
    case None => None
  }

  function TrimSlashes(s: string): string {
    if s != "" && s[0] == '/' then TrimSlashes(s[1..]) else s
  }

  function DeploymentName(roots: Releases, karg: string): Option<string> {
    var dir := TrimSlashes(karg);
    if dir !in roots then None
    else if NameIn(roots[dir].usr).Some? then NameIn(roots[dir].usr)
    else NameIn(roots[dir].etc)
  }

  // ----- titles -----

  const MARK := "(ostree:"

  /** The text after the last occurrence of `mark`. */
  function AfterLast(s: string, mark: string): Option<string> {
    if EndsWith(s, mark) then Some("")
    else if s == "" then None
    else
      match AfterLast(s[..|s| - 1], mark)
      case Some(tail) => Some(tail + [s[|s| - 1]])
      case None => None
  }

  function SlotIn(trimmed: string): Option<nat> {
    if trimmed == "" || trimmed[|trimmed| - 1] != ')' then None
    else
      match AfterLast(trimmed[..|trimmed| - 1], MARK)
      case Some(tail) => ParseU32(tail)
      case None => None
  }

  function SuffixIndex(title: string): Option<nat> { SlotIn(TrimEnd(title)) }

  function Suffixed(pretty: string, slot: nat): string { pretty + (" " + MARK + Decimal(slot) + ")") }

  /** The title an entry should carry, given the one it carries. */
  function TitleFor(current: string, pretty: string, karg: string): Option<string> {
    if SuffixIndex(current).None? then Some(pretty)
    else if KargIndex(karg).None? then None
    else Some(Suffixed(pretty, KargIndex(karg).value))
  }

  datatype Titles = Titles(from: string, to: string)

  /** What the entry boots: its karg and the name of the deployment there. */
  function Boots(lines: seq<string>, roots: Releases): Option<(string, string)> {
    match Field(lines, OPTIONS)
    case None => None
    case Some(options) =>
      match OstreeKarg(options)
      case None => None
      case Some(karg) =>
        match DeploymentName(roots, karg)
        case None => None
        case Some(pretty) => Some((karg, pretty))
  }

  function Wanted(lines: seq<string>, roots: Releases): Option<Titles> {
    match (Field(lines, TITLE), Boots(lines, roots))
    case (Some(current), Some((karg, pretty))) =>
      (match TitleFor(current, pretty, karg)
       case Some(to) => Some(Titles(current, to))
       case None => None)
    case _ => None
  }

  // ----- the rewrite of one entry -----

  function RewriteLine(line: string, title: string): string {
    if IsField(line, TITLE) then "title " + title else line
  }

  function RewriteLines(lines: seq<string>, title: string): seq<string> {
    if lines == [] then [] else [RewriteLine(lines[0], title)] + RewriteLines(lines[1..], title)
  }

  function Rewritten(body: string, title: string): string { Unlines(RewriteLines(Lines(body), title)) }

  method WriteOut(body: string, title: string) returns (out: string)
    ensures out == Rewritten(body, title)
  {
    out := "";
    var lines := Lines(body);
    for i := 0 to |lines|
      invariant out + Unlines(RewriteLines(lines[i..], title)) == Rewritten(body, title)
    {
      assert lines[i..][0] == lines[i] && lines[i..][1..] == lines[i + 1..];
      var piece := (if IsField(lines[i], TITLE) then "title " + title else lines[i]) + "\n";
      UnlinesCons(RewriteLine(lines[i], title), RewriteLines(lines[i + 1..], title));
      SeqAssociative(out, piece, Unlines(RewriteLines(lines[i + 1..], title)));
      out := out + piece;
    }
  }

  lemma UnlinesCons(line: string, lines: seq<string>)
    ensures Unlines([line] + lines) == line + "\n" + Unlines(lines)
  {
    assert ([line] + lines)[1..] == lines;
  }

  /** Reading the rewritten entry gives the rewritten lines; a carriage return
      that ended one is taken for part of the line break. */
  lemma RewrittenReads(body: string, title: string)
    requires '\n' !in title
    ensures Lines(Rewritten(body, title)) == DropCrs(RewriteLines(Lines(body), title))
  {
    LinesHoldNoBreak(body);
    RewriteBreaks(Lines(body), title);
    LinesOfRaw(RewriteLines(Lines(body), title), "");
    assert Rewritten(body, title) + "" == Rewritten(body, title);
  }

  lemma {:induction false} RewriteBreaks(lines: seq<string>, title: string)
    requires NoBreaks(lines) && '\n' !in title
    ensures NoBreaks(RewriteLines(lines, title))
  {
    if lines != [] {
      assert lines[0] in lines;
      RewriteBreaks(lines[1..], title);
    }
  }

  // ----- fields under trimming -----

  lemma TrimAround(left: string, s: string, right: string)
    requires Blank(left) && Blank(right)
    ensures Trim(left + s + right) == Trim(s)
  {
    var l, r := TrimDecomposes(s);
    assert left + s + right == (left + l) + Trim(s) + (r + right);
    TrimAbsorbs(left + l, Trim(s), r + right);
  }

  /** A carriage return at the end of a line is in no field's value; it can
      only be the white space that makes an empty field one. */
  lemma FieldDropCr(line: string, key: string)
    requires key != "" && Trimmed(key)
    ensures IsField(DropCr(line), key) ==> IsField(line, key)
    ensures IsField(line, key) && FieldValue(line, key) != "" ==>
              IsField(DropCr(line), key) && FieldValue(DropCr(line), key) == FieldValue(line, key)
  {
    if DropCr(line) != line {
      StartDropCr(line);
      var s := TrimStart(line);
      if key <= s && |key| < |s| {
        var rest := s[|key|..];
        assert DropCr(s)[|key|..] == DropCr(rest) || s == key + "\r";
        DropCrTrim(rest);
        if |s| == |key| + 1 && s[|key|] == '\r' {
          TrimEmptyIffBlank(rest);
        }
      }
    }
  }

  lemma {:induction false} StartDropCr(line: string)
    ensures TrimStart(DropCr(line)) == DropCr(TrimStart(line))
  {
    if line != "" && IsSpace(line[0]) {
      StartDropCr(line[1..]);
      if |line| > 1 {
        assert DropCr(line)[1..] == DropCr(line[1..]);
      }
    }
  }

  lemma TitleLine(title: string)
    ensures IsField(DropCr("title " + title), TITLE)
    ensures FieldValue(DropCr("title " + title), TITLE) == Trim(title)
  {
    var line := "title " + title;
    assert line[0] == 't' && line[5] == ' ';
    assert DropCr(line) == "title " + DropCr(title);
    assert TrimStart(DropCr(line)) == DropCr(line);
    assert DropCr(line)[5..] == " " + DropCr(title) + "";
    TrimAround(" ", DropCr(title), "");
    DropCrTrim(title);
  }

  lemma OneKeyOnly(line: string)
    ensures !(IsField(line, TITLE) && IsField(line, OPTIONS))
  {
    assert TITLE[0] == 't' && OPTIONS[0] == 'o';
  }

  lemma {:induction false} TitleAfter(lines: seq<string>, title: string)
    requires Field(lines, TITLE).Some?
    ensures Field(DropCrs(RewriteLines(lines, title)), TITLE) == Some(Trim(title))
  {
    var after := DropCrs(RewriteLines(lines, title));
    assert RewriteLines(lines, title)[1..] == RewriteLines(lines[1..], title);
    assert after[0] == DropCr(RewriteLine(lines[0], title)) && after[1..] == DropCrs(RewriteLines(lines[1..], title));
    if IsField(lines[0], TITLE) {
      TitleLine(title);
    } else {
      FieldDropCr(lines[0], TITLE);
      TitleAfter(lines[1..], title);
    }
  }

  lemma {:induction false} OptionsAfter(lines: seq<string>, title: string)
    requires Field(lines, OPTIONS).Some? && Field(lines, OPTIONS).value != ""
    ensures Field(DropCrs(RewriteLines(lines, title)), OPTIONS) == Field(lines, OPTIONS)
  {
    var after := DropCrs(RewriteLines(lines, title));
    assert RewriteLines(lines, title)[1..] == RewriteLines(lines[1..], title);
    assert after[0] == DropCr(RewriteLine(lines[0], title)) && after[1..] == DropCrs(RewriteLines(lines[1..], title));
    OneKeyOnly(lines[0]);
    FieldDropCr(lines[0], OPTIONS);
    if !IsField(lines[0], OPTIONS) {
      if IsField(lines[0], TITLE) {
        TitleLine(title);
        OneKeyOnly(after[0]);
      }
      OptionsAfter(lines[1..], title);
    }
  }

  // ----- slots in titles -----

  lemma {:induction false} AfterLastOf(head: string, digits: string)
    requires ':' !in digits
    ensures AfterLast(head + MARK + digits, MARK) == Some(digits)
  {
    var s := head + MARK + digits;
    if digits == "" {
      assert s == head + MARK;
    } else {
      var n := |digits| - 1;
      assert digits[n] in digits;
      assert s[..|s| - 1] == head + MARK + digits[..n];
      assert digits[..n] + [digits[n]] == digits;
      assert MARK[|MARK| - 1] == ':' && s[|s| - 1] == digits[n];
      assert !EndsWith(s, MARK) by {
        assert s[|s| - |MARK|..][|MARK| - 1] == s[|s| - 1];
      }
      AfterLastOf(head, digits[..n]);
    }
  }

  lemma EndsWithBlank(left: string, s: string)
    requires Blank(left)
    ensures EndsWith(left + s, MARK) <==> EndsWith(s, MARK)
  {
    assert '(' !in left && MARK[0] == '(';
    var t := left + s;
    if EndsWith(t, MARK) {
      var at := |t| - |MARK|;
      assert t[at..][0] == t[at];
      assert s[at - |left|..] == t[at..];
    }
    if EndsWith(s, MARK) {
      assert t[|t| - |MARK|..] == s[|s| - |MARK|..];
    }
  }

  /** Leading white space holds no part of a slot. */
  lemma {:induction false} AfterLastBlank(left: string, s: string)
    requires Blank(left)
    ensures AfterLast(left + s, MARK) == AfterLast(s, MARK)
    decreases |left| + |s|
  {
    EndsWithBlank(left, s);
    var t := left + s;
    if s != "" {
      assert t[..|t| - 1] == left + s[..|s| - 1];
      AfterLastBlank(left, s[..|s| - 1]);
    } else if left != "" {
      assert t[..|t| - 1] == left[..|left| - 1] + s;
      AfterLastBlank(left[..|left| - 1], s);
    }
  }

  lemma {:induction false} TrimEndOfBlank(s: string)
    requires Blank(s)
    ensures TrimEnd(s) == ""
  {
    if s != "" {
      assert s[|s| - 1] in s;
      TrimEndOfBlank(s[..|s| - 1]);
    }
  }

  lemma TrimEndOfTrim(s: string) returns (left: string)
    ensures Blank(left) && TrimEnd(s) == (if Trim(s) == "" then "" else left + Trim(s))
  {
    var l, r := TrimDecomposes(s);
    left := l;
    if Trim(s) == "" {
      TrimEmptyIffBlank(s);
      TrimEndOfBlank(s);
    } else {
      TrimEndAbsorbs(l + Trim(s), r);
    }
  }

  lemma SlotAfterBlank(left: string, t: string)
    requires Blank(left) && t != ""
    ensures SlotIn(left + t) == SlotIn(t)
  {
    var s := left + t;
    assert s[|s| - 1] == t[|t| - 1] && s[..|s| - 1] == left + t[..|t| - 1];
    AfterLastBlank(left, t[..|t| - 1]);
  }

  lemma TrimEndOfTrimmed(t: string)
    requires Trimmed(t)
    ensures TrimEnd(t) == t
  {}

  lemma SuffixOfTrimmed(s: string)
    ensures SuffixIndex(Trim(s)) == SuffixIndex(s)
  {
    var t := Trim(s);
    TrimIsTrimmed(s);
    TrimEndOfTrimmed(t);
    var left := TrimEndOfTrim(s);
    if t != "" {
      SlotAfterBlank(left, t);
    }
  }

  lemma SlotReads(s: string, tail: string)
    requires AfterLast(s, MARK) == Some(tail)
    ensures SlotIn(s + ")") == ParseU32(tail)
  {
    assert (s + ")")[..|s|] == s;
  }

  lemma SlotOf(head: string, slot: nat)
    requires slot <= U32_MAX
    ensures SlotIn(head + MARK + Decimal(slot) + ")") == Some(slot)
  {
    AfterLastOf(head, Decimal(slot));
    SlotReads(head + MARK + Decimal(slot), Decimal(slot));
    KernelArgs.DecimalParses(slot);
  }

  lemma SuffixOfSuffixed(pretty: string, slot: nat)
    requires slot <= U32_MAX
    ensures SuffixIndex(Suffixed(pretty, slot)) == Some(slot)
  {
    var title := Suffixed(pretty, slot);
    assert title == pretty + " " + MARK + Decimal(slot) + ")";
    assert TrimEnd(title) == title;
    SlotOf(pretty + " ", slot);
  }

  // ----- one entry settles -----

  predicate IsStale(lines: seq<string>, roots: Releases) {
    var w := Wanted(lines, roots);
    w.Some? && w.value.from != w.value.to
  }

  /** What makes one rewrite enough: a name that carries no slot of its own
      where none is added, and no white space where the field would lose it. */
  predicate Settles(from: string, karg: string, pretty: string)
    requires pretty != ""
  {
    if SuffixIndex(from).Some? then !IsSpace(pretty[0])
    else if SuffixIndex(pretty).Some? then KargIndex(karg).None?
    else Trimmed(pretty)
  }

  lemma PrettyOfHolds(value: string)
    requires PrettyOf(value).Some?
    ensures PrettyOf(value).value != "" && forall c <- PrettyOf(value).value :: c in value
  {}

  lemma {:induction false} PrettyIsALine(lines: seq<string>)
    requires NoBreaks(lines) && PrettyName(lines).Some?
    ensures PrettyName(lines).value != "" && '\n' !in PrettyName(lines).value
  {
    if StartsWith(Trim(lines[0]), PRETTY) {
      assert lines[0] in lines;
      TrimIsTrimmed(lines[0]);
      var value := Trim(lines[0])[|PRETTY|..];
      TrimIsTrimmed(value);
      PrettyOfHolds(Trim(value));
    } else {
      PrettyIsALine(lines[1..]);
    }
  }

  lemma DeploymentNameIsALine(roots: Releases, karg: string)
    requires DeploymentName(roots, karg).Some?
    ensures DeploymentName(roots, karg).value != "" && '\n' !in DeploymentName(roots, karg).value
  {
    var release := roots[TrimSlashes(karg)];
    var file := if NameIn(release.usr).Some? then release.usr else release.etc;
    LinesHoldNoBreak(file.value);
    PrettyIsALine(Lines(file.value));
  }

  /** A rewritten entry boots what it booted. */
  lemma BootsAfter(lines: seq<string>, title: string, roots: Releases)
    requires Boots(lines, roots).Some?
    ensures Boots(DropCrs(RewriteLines(lines, title)), roots) == Boots(lines, roots)
  {
    assert OstreeKarg("").None?;
    OptionsAfter(lines, title);
  }

  lemma BreakFree(pretty: string, slot: nat)
    requires '\n' !in pretty
    ensures '\n' !in Suffixed(pretty, slot)
  {
    assert '\n' !in MARK;
    DigitsHold(Decimal(slot), '\n');
  }

  lemma TrimmedExactly(s: string)
    ensures Trim(s) == s <==> Trimmed(s)
  {
    TrimIsTrimmed(s);
    if Trimmed(s) {
      TrimOfTrimmed(s);
    }
  }

  /** Which titles say the right thing once they are written. */
  lemma TitleSettles(from: string, karg: string, pretty: string)
    requires pretty != "" && TitleFor(from, pretty, karg).Some?
    ensures var to := TitleFor(from, pretty, karg).value;
      (TitleFor(Trim(to), pretty, karg) in {None, Some(Trim(to))}) <==> Settles(from, karg, pretty)
  {
    var to := TitleFor(from, pretty, karg).value;
    SuffixOfTrimmed(to);
    TrimmedExactly(to);
    TrimIsTrimmed(to);
    if SuffixIndex(from).Some? {
      SuffixOfSuffixed(pretty, KargIndex(karg).value);
      assert to[0] == pretty[0] && to[|to| - 1] == ')';
    }
  }

  /** After one rewrite an entry is stale no more, exactly when the
      deployment's name lets the title settle. */
  lemma RewriteSettles(body: string, roots: Releases)
    requires IsStale(Lines(body), roots)
    ensures var (karg, pretty) := Boots(Lines(body), roots).value;
      var w := Wanted(Lines(body), roots).value;
      pretty != "" && (!IsStale(Lines(Rewritten(body, w.to)), roots) <==> Settles(w.from, karg, pretty))
  {
    var lines := Lines(body);
    var (karg, pretty) := Boots(lines, roots).value;
    var w := Wanted(lines, roots).value;
    DeploymentNameIsALine(roots, karg);
    if KargIndex(karg).Some? {
      BreakFree(pretty, KargIndex(karg).value);
    }
    RewrittenReads(body, w.to);
    TitleAfter(lines, w.to);
    BootsAfter(lines, w.to, roots);
    TitleSettles(w.from, karg, pretty);
  }

  // ----- a title that never settles -----

  const QUOTED := "\" k\""
  const SPACED := map["0" := Release(Some(Unlines([PRETTY + QUOTED])), None)]
  const ENTRY := [TITLE + " x", OPTIONS + " ostree=0"]

  lemma SpacedName()
    ensures DeploymentName(SPACED, "0") == Some(" k")
  {
    var line := PRETTY + QUOTED;
    assert line[0] == 'P' && line[|line| - 1] == '"';
    assert Clean(line);
    CleanSurvives(line);
    LinesRoundTrip([line]);
    TrimOfTrimmed(line);
    assert line[|PRETTY|..] == QUOTED;
    TrimOfTrimmed(QUOTED);
    assert QUOTED[1..|QUOTED| - 1] == " k";
    assert TrimSlashes("0") == "0";
  }

  lemma FieldLine(key: string, value: string)
    requires key != "" && Trimmed(key) && Trimmed(value)
    ensures IsField(key + (" " + value), key) && FieldValue(key + (" " + value), key) == value
  {
    var line := key + (" " + value);
    assert TrimStart(line) == line && line[|key|..] == " " + value;
    assert " " + value == " " + value + "";
    TrimAround(" ", value, "");
    TrimOfTrimmed(value);
  }

  lemma EntryFields()
    ensures Field(ENTRY, TITLE) == Some("x") && Field(ENTRY, OPTIONS) == Some("ostree=0")
  {
    FieldLine(TITLE, "x");
    FieldLine(OPTIONS, "ostree=0");
    OneKeyOnly(ENTRY[0]);
    assert TITLE + " x" == TITLE + (" " + "x") && OPTIONS + " ostree=0" == OPTIONS + (" " + "ostree=0");
  }

  lemma BareTitle(lines: seq<string>, roots: Releases, options: string, current: string, karg: string, pretty: string)
    requires Field(lines, TITLE) == Some(current) && SuffixIndex(current).None?
    requires Field(lines, OPTIONS) == Some(options) && OstreeKarg(options) == Some(karg)
    requires DeploymentName(roots, karg) == Some(pretty)
    ensures Boots(lines, roots) == Some((karg, pretty)) && Wanted(lines, roots) == Some(Titles(current, pretty))
  {}

  lemma NoSlots()
    ensures SuffixIndex("x").None? && SuffixIndex(" k").None?
  {
    assert TrimEnd("x") == "x" && TrimEnd(" k") == " k";
  }

  lemma EntryWanted()
    ensures Boots(ENTRY, SPACED) == Some(("0", " k")) && Wanted(ENTRY, SPACED) == Some(Titles("x", " k"))
  {
    EntryFields();
    EntryKarg();
    SpacedName();
    NoSlots();
    BareTitle(ENTRY, SPACED, "ostree=0", "x", "0", " k");
  }

  lemma EntryReads()
    ensures Lines(Unlines(ENTRY)) == ENTRY
  {
    assert Clean(ENTRY[0]) && Clean(ENTRY[1]);
    AllSurvive(ENTRY);
    LinesRoundTrip(ENTRY);
  }

  lemma EntryKarg()
    ensures OstreeKarg("ostree=0") == Some("0")
  {
    var word := "ostree=0";
    assert word == KARG + "0" && KernelArgs.IsWord(word);
    KernelArgs.LineRoundTrip([word]);
    assert KernelArgs.Line([word]) == word;
  }

  /** A deployment that calls itself `" k"`: its entry is retitled, and is stale
      again at once. */
  lemma ASpacedNameNeverSettles()
    ensures var body := Unlines(ENTRY);
      && IsStale(Lines(body), SPACED)
      && IsStale(Lines(Rewritten(body, Wanted(Lines(body), SPACED).value.to)), SPACED)
  {
    EntryReads();
    EntryWanted();
    NoSlots();
    RewriteSettles(Unlines(ENTRY), SPACED);
  }

  /** The lines that are no title: what decides whether an entry boots. */
  function OtherLines(lines: seq<string>): seq<string> {
    if lines == [] then []
    else (if IsField(lines[0], TITLE) then [] else [lines[0]]) + OtherLines(lines[1..])
  }

  lemma OtherLinesCons(line: string, rest: seq<string>)
    ensures OtherLines([line] + rest) == if IsField(line, TITLE) then OtherLines(rest) else [line] + OtherLines(rest)
  {
    assert ([line] + rest)[1..] == rest && [] + OtherLines(rest) == OtherLines(rest);
  }

  lemma DropCrsCons(line: string, rest: seq<string>)
    ensures DropCrs([line] + rest) == [DropCr(line)] + DropCrs(rest)
  {
    assert ([line] + rest)[1..] == rest;
  }

  /** Losing a carriage return makes no line a title. */
  lemma {:induction false} OthersOfRewritten(lines: seq<string>, title: string)
    ensures OtherLines(DropCrs(RewriteLines(lines, title))) == DropCrs(OtherLines(lines))
  {
    if lines != [] {
      var first, rest := lines[0], lines[1..];
      assert lines == [first] + rest;
      DropCrsCons(RewriteLine(first, title), RewriteLines(rest, title));
      OtherLinesCons(DropCr(RewriteLine(first, title)), DropCrs(RewriteLines(rest, title)));
      OtherLinesCons(first, rest);
      OthersOfRewritten(rest, title);
      if IsField(first, TITLE) {
        TitleLine(title);
      } else {
        FieldDropCr(first, TITLE);
        DropCrsCons(first, OtherLines(rest));
      }
    }
  }

  lemma {:induction false} DropCrsSame(lines: seq<string>)
    ensures DropCrs(lines) == lines <==> forall l <- lines :: DropCr(l) == l
  {
    if lines != [] {
      DropCrsSame(lines[1..]);
      assert lines == [lines[0]] + lines[1..];
    }
  }

  /** Every line that is no title is there after the rewrite, in its order, but
      for a carriage return left at its end: so all of them are as they were
      exactly when none still ends in one once read. */
  lemma RewriteKeepsOthers(body: string, title: string)
    requires '\n' !in title
    ensures var others := OtherLines(Lines(body)); var after := OtherLines(Lines(Rewritten(body, title)));
      after == DropCrs(others) && (after == others <==> forall l <- others :: DropCr(l) == l)
  {
    RewrittenReads(body, title);
    OthersOfRewritten(Lines(body), title);
    DropCrsSame(OtherLines(Lines(body)));
  }
}
