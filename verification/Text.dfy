/** The text operations the repository leans on, with the meaning the Rust
    standard library gives them: `char::is_whitespace`, `str::trim`,
    `str::lines`, `str::split_once`. A string is a sequence of scalar values. */
module Text {

  datatype Option<+T> = None | Some(value: T)

  /** The characters with the Unicode property White_Space. */
  predicate IsSpace(c: char) {
    var n := c as int;
    9 <= n <= 13 || n == 32 || n == 0x85 || n == 0xA0 || n == 0x1680 || 0x2000 <= n <= 0x200A ||
    n == 0x2028 || n == 0x2029 || n == 0x202F || n == 0x205F || n == 0x3000
  }

  predicate IsDigit(c: char) { '0' <= c <= '9' }

  predicate IsAlnum(c: char) { IsDigit(c) || 'a' <= c <= 'z' || 'A' <= c <= 'Z' }

  function TrimStart(s: string): string {
    if s != "" && IsSpace(s[0]) then TrimStart(s[1..]) else s
  }

  function TrimEnd(s: string): string {
    if s != "" && IsSpace(s[|s| - 1]) then TrimEnd(s[..|s| - 1]) else s
  }

  function Trim(s: string): string { TrimEnd(TrimStart(s)) }

  /** No white space at either end. */
  predicate Trimmed(s: string) { s == "" || (!IsSpace(s[0]) && !IsSpace(s[|s| - 1])) }

  predicate SpaceFree(s: string) { forall c <- s :: !IsSpace(c) }

  predicate Blank(s: string) { forall c <- s :: IsSpace(c) }

  /** `Trim` returns the one trimmed stretch of `s` with only white space
      around it. */
  lemma TrimDecomposes(s: string) returns (left: string, right: string)
    ensures s == left + Trim(s) + right
    ensures Blank(left) && Blank(right) && Trimmed(Trim(s))
    ensures s != "" && !IsSpace(s[0]) ==> left == ""
  {
    left := TrimStartDecomposes(s);
    var mid := TrimStart(s);
    right := TrimEndDecomposes(mid);
    assert s == left + (TrimEnd(mid) + right);
    if TrimEnd(mid) != "" {
      assert mid[0] == TrimEnd(mid)[0];
    }
  }

  lemma {:induction false} TrimStartDecomposes(s: string) returns (left: string)
    ensures s == left + TrimStart(s) && Blank(left)
    ensures TrimStart(s) == "" || !IsSpace(TrimStart(s)[0])
    ensures s != "" && !IsSpace(s[0]) ==> left == ""
  {
    if s != "" && IsSpace(s[0]) {
      var l := TrimStartDecomposes(s[1..]);
      left := [s[0]] + l;
    } else {
      left := "";
    }
  }

  lemma {:induction false} TrimEndDecomposes(s: string) returns (right: string)
    ensures s == TrimEnd(s) + right && Blank(right)
    ensures TrimEnd(s) == "" || !IsSpace(TrimEnd(s)[|TrimEnd(s)| - 1])
  {
    if s != "" && IsSpace(s[|s| - 1]) {
      var r := TrimEndDecomposes(s[..|s| - 1]);
      right := r + [s[|s| - 1]];
    } else {
      right := "";
    }
  }

  lemma TrimOfTrimmed(s: string)
    requires Trimmed(s)
    ensures Trim(s) == s
  {}

  lemma TrimIsTrimmed(s: string)
    ensures Trimmed(Trim(s)) && Trim(Trim(s)) == Trim(s) && |Trim(s)| <= |s|
    ensures forall c <- Trim(s) :: c in s
  {
    var l, r := TrimDecomposes(s);
    TrimOfTrimmed(Trim(s));
  }

  lemma {:induction false} TrimStartOfBlank(s: string)
    requires Blank(s)
    ensures TrimStart(s) == ""
  {
    if s != "" {
      assert s[0] in s;
      TrimStartOfBlank(s[1..]);
    }
  }

  lemma TrimEmptyIffBlank(s: string)
    ensures Trim(s) == "" <==> Blank(s)
  {
    var l, r := TrimDecomposes(s);
    if Blank(s) {
      TrimStartOfBlank(s);
    } else {
      assert Trim(s) == "" ==> s == l + r;
    }
  }

  /** Surrounding white space never changes what `Trim` returns. */
  lemma {:induction false} TrimAbsorbs(left: string, s: string, right: string)
    requires Blank(left) && Blank(right) && Trimmed(s)
    ensures Trim(left + s + right) == s
    decreases |left| + |right|
  {
    if s == "" {
      TrimStartOfBlank(left + s + right);
    } else {
      TrimStartAbsorbs(left, s + right);
      assert left + s + right == left + (s + right);
      TrimEndAbsorbs(s, right);
    }
  }

  /** A text trims to what stands in it between white space. */
  lemma TrimMeans(s: string, t: string)
    requires Trimmed(t)
    ensures Trim(s) == t <==> exists left, right :: Blank(left) && Blank(right) && s == left + t + right
  {
    if Trim(s) == t {
      var left, right := TrimDecomposes(s);
    }
    if left, right :| Blank(left) && Blank(right) && s == left + t + right {
      TrimAbsorbs(left, t, right);
    }
  }

  lemma {:induction false} TrimStartAbsorbs(left: string, s: string)
    requires Blank(left) && s != "" && !IsSpace(s[0])
    ensures TrimStart(left + s) == s
  {
    if left == "" {
      assert left + s == s;
    } else {
      assert (left + s)[0] == left[0] && left[0] in left;
      assert (left + s)[1..] == left[1..] + s;
      TrimStartAbsorbs(left[1..], s);
    }
  }

  lemma {:induction false} TrimEndAbsorbs(s: string, right: string)
    requires Blank(right) && s != "" && !IsSpace(s[|s| - 1])
    ensures TrimEnd(s + right) == s
  {
    if right == "" {
      assert s + right == s;
    } else {
      var n := |right| - 1;
      assert (s + right)[|s| + n] == right[n] && right[n] in right;
      assert (s + right)[..|s| + n] == s + right[..n];
      TrimEndAbsorbs(s, right[..n]);
    }
  }

  /** The position of the first `c`, or the length of `s`. */
  function IndexOf(s: string, c: char): (i: nat)
    ensures i <= |s| && c !in s[..i] && (i < |s| ==> s[i] == c)
  {
    if s == "" then 0
    else if s[0] == c then 0
    else
      var i := IndexOf(s[1..], c);
      assert s[..i + 1] == [s[0]] + s[1..][..i];
      i + 1
  }

  lemma {:induction false} IndexOfIs(s: string, c: char, i: nat)
    requires i < |s| && s[i] == c && c !in s[..i]
    ensures IndexOf(s, c) == i
  {
    if i > 0 {
      assert s[..i][0] == s[0];
      assert s[1..][..i - 1] == s[..i][1..];
      IndexOfIs(s[1..], c, i - 1);
    }
  }

  lemma IndexOfAbsent(s: string, c: char)
    requires c !in s
    ensures IndexOf(s, c) == |s|
  {}

  /** `str::split` on one character: always at least one field. */
  function Split(s: string, c: char): (r: seq<string>)
    ensures r != []
    decreases |s|
  {
    var at := IndexOf(s, c);
    if at == |s| then [s] else [s[..at]] + Split(s[at + 1..], c)
  }

  lemma SplitStep(field: string, c: char, rest: string)
    requires c !in field
    ensures Split(field + [c] + rest, c) == [field] + Split(rest, c)
  {
    var s := field + [c] + rest;
    assert s[..|field|] == field && s[|field| + 1..] == rest;
    IndexOfIs(s, c, |field|);
  }

  predicate StartsWith(s: string, prefix: string) { prefix <= s }

  predicate EndsWith(s: string, suffix: string) {
    |suffix| <= |s| && s[|s| - |suffix|..] == suffix
  }

  /** A line as `lines` hands it over: without the carriage return that stood
      before the line feed. */
  function DropCr(line: string): string {
    if line != "" && line[|line| - 1] == '\r' then line[..|line| - 1] else line
  }

  /** `str::lines`: a final line without a line feed keeps a carriage return. */
  function Lines(text: string): seq<string>
    decreases |text|
  {
    if text == "" then []
    else
      var i := IndexOf(text, '\n');
      if i == |text| then [text] else [DropCr(text[..i])] + Lines(text[i + 1..])
  }

  /** The lines written back, each with its line feed. */
  function Unlines(lines: seq<string>): string {
    if lines == [] then "" else lines[0] + "\n" + Unlines(lines[1..])
  }

  /** No element stands in two places. */
  predicate NoDuplicates<T(==)>(xs: seq<T>) { forall i, j | 0 <= i < j < |xs| :: xs[i] != xs[j] }

  lemma SeqAssociative<T>(a: seq<T>, b: seq<T>, c: seq<T>)
    ensures (a + b) + c == a + (b + c)
  {}

  lemma {:induction false} UnlinesAppend(a: seq<string>, b: seq<string>)
    ensures Unlines(a + b) == Unlines(a) + Unlines(b)
  {
    if a == [] {
      assert a + b == b;
    } else {
      assert (a + b)[1..] == a[1..] + b;
      UnlinesAppend(a[1..], b);
    }
  }

  lemma UnlinesOne(line: string)
    ensures Unlines([line]) == line + "\n"
  {
    assert Unlines([line][1..]) == "";
  }

  /** Holds no line break of either kind. */
  predicate Clean(s: string) { '\n' !in s && '\r' !in s }

  /** What a written line must be to come back from `Lines` as it was. */
  predicate Survives(line: string) { '\n' !in line && DropCr(line) == line }

  lemma LinesStep(line: string, rest: string)
    requires '\n' !in line
    ensures Lines(line + "\n" + rest) == [DropCr(line)] + Lines(rest)
  {
    var t := line + "\n" + rest;
    assert t[..|line|] == line && t[|line| + 1..] == rest;
    IndexOfIs(t, '\n', |line|);
  }

  lemma {:induction false} SurvivorsKeep(lines: seq<string>)
    requires forall l <- lines :: Survives(l)
    ensures DropCrs(lines) == lines && NoBreaks(lines)
  {
    if lines != [] {
      assert Survives(lines[0]) by { assert lines[0] in lines; }
      SurvivorsKeep(lines[1..]);
    }
  }

  lemma LinesOfUnlines(lines: seq<string>, rest: string)
    requires forall l <- lines :: Survives(l)
    ensures Lines(Unlines(lines) + rest) == lines + Lines(rest)
  {
    SurvivorsKeep(lines);
    LinesOfRaw(lines, rest);
  }

  lemma LinesRoundTrip(lines: seq<string>)
    requires forall l <- lines :: Survives(l)
    ensures Lines(Unlines(lines)) == lines
  {
    LinesOfUnlines(lines, "");
    assert Unlines(lines) + "" == Unlines(lines);
  }

  lemma {:induction false} LinesHoldNoBreak(text: string)
    ensures forall l <- Lines(text) :: '\n' !in l
    ensures '\r' !in text ==> forall l <- Lines(text) :: Clean(l)
    decreases |text|
  {
    if text != "" {
      var i := IndexOf(text, '\n');
      if i < |text| {
        LinesHoldNoBreak(text[i + 1..]);
      }
    }
  }

  /** The string with nothing but `\n`-free, `\r`-free pieces in it. */
  lemma {:induction false} UnlinesClean(lines: seq<string>)
    requires forall l <- lines :: Clean(l)
    ensures '\r' !in Unlines(lines)
  {
    if lines != [] {
      assert lines[0] in lines;
      UnlinesClean(lines[1..]);
    }
  }

  lemma CleanSurvives(line: string)
    requires Clean(line)
    ensures Survives(line)
  {
    if line != "" {
      assert line[|line| - 1] in line;
    }
  }

  lemma AllSurvive(lines: seq<string>)
    requires forall l <- lines :: Clean(l)
    ensures forall l <- lines :: Survives(l)
  {
    forall l | l in lines ensures Survives(l) {
      CleanSurvives(l);
    }
  }

  /** Lines without a line feed inside. */
  predicate NoBreaks(lines: seq<string>) { forall l <- lines :: '\n' !in l }

  function DropCrs(lines: seq<string>): seq<string> {
    if lines == [] then [] else [DropCr(lines[0])] + DropCrs(lines[1..])
  }

  lemma {:induction false} DropCrTrim(line: string)
    ensures Trim(DropCr(line)) == Trim(line)
  {
    if DropCr(line) != line {
      var l, r := TrimDecomposes(DropCr(line));
      assert line == DropCr(line) + "\r";
      assert line == l + Trim(DropCr(line)) + (r + "\r");
      TrimAbsorbs(l, Trim(DropCr(line)), r + "\r");
    }
  }

  lemma {:induction false} LinesOfRaw(lines: seq<string>, more: string)
    requires NoBreaks(lines)
    ensures Lines(Unlines(lines) + more) == DropCrs(lines) + Lines(more)
  {
    if lines == [] {
      assert Unlines(lines) + more == more;
    } else {
      var head, tail := lines[0], lines[1..];
      assert '\n' !in head by { assert head in lines; }
      LinesOfRaw(tail, more);
      SeqAssociative(head + "\n", Unlines(tail), more);
      LinesStep(head, Unlines(tail) + more);
      SeqAssociative([DropCr(head)], DropCrs(tail), Lines(more));
    }
  }

  /** Words with a separator between them. */
  function Joined(words: seq<string>, sep: char): string {
    if words == [] then ""
    else if |words| == 1 then words[0]
    else words[0] + ([sep] + Joined(words[1..], sep))
  }

  /** What follows the last slash, or all of it. */
  function AfterLastSlash(s: string): string {
    if s == "" || s[|s| - 1] == '/' then "" else AfterLastSlash(s[..|s| - 1]) + [s[|s| - 1]]
  }
}
