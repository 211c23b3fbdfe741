/** The kernel arguments of hibernation (`src/hibernate.rs`): what the command
    line says about resuming, and the plan that makes it say something else. */
module KernelArgs {
  import opened Text
  import opened Timestamp

  // ----- words -----

  predicate IsWord(w: string) { w != "" && forall c <- w :: !IsSpace(c) }

  predicate AllWords(words: seq<string>) { forall w <- words :: IsWord(w) }

  /** The length of the word a trimmed text starts with. */
  function WordLength(s: string): (n: nat)
    ensures n <= |s| && (n < |s| ==> IsSpace(s[n]))
    ensures forall c <- s[..n] :: !IsSpace(c)
    ensures s != "" && !IsSpace(s[0]) ==> n > 0
  {
    if s == "" || IsSpace(s[0]) then 0
    else
      var n := WordLength(s[1..]);
      assert s[..n + 1] == [s[0]] + s[1..][..n];
      n + 1
  }

  function WordsOf(trimmed: string): seq<string>
    requires trimmed == "" || !IsSpace(trimmed[0])
    decreases |trimmed|
  {
    if trimmed == "" then []
    else
      var n := WordLength(trimmed);
      var left := TrimStart(trimmed[n..]);
      TrimStartShort(trimmed[n..]);
      [trimmed[..n]] + WordsOf(left)
  }

  lemma TrimStartShort(s: string)
    ensures |TrimStart(s)| <= |s| && (TrimStart(s) == "" || !IsSpace(TrimStart(s)[0]))
  {
    var l := TrimStartDecomposes(s);
  }

  /** `str::split_whitespace`. */
  function Words(s: string): seq<string> {
    TrimStartShort(s);
    WordsOf(TrimStart(s))
  }

  /** A command line with its words between single spaces. */
  function Line(words: seq<string>): string { Joined(words, ' ') }

  lemma {:induction false} WordLengthOf(w: string, rest: string)
    requires IsWord(w) && (rest == "" || IsSpace(rest[0]))
    ensures WordLength(w + rest) == |w|
  {
    assert w[0] in w;
    if |w| == 1 {
      assert (w + rest)[1..] == rest;
    } else {
      assert (w + rest)[1..] == w[1..] + rest;
      WordLengthOf(w[1..], rest);
    }
  }

  lemma {:induction false} WordsOfWordsAre(trimmed: string)
    requires trimmed == "" || !IsSpace(trimmed[0])
    ensures AllWords(WordsOf(trimmed))
    decreases |trimmed|
  {
    if trimmed != "" {
      var n := WordLength(trimmed);
      TrimStartShort(trimmed[n..]);
      WordsOfWordsAre(TrimStart(trimmed[n..]));
    }
  }

  lemma WordsAreWords(s: string)
    ensures AllWords(Words(s))
  {
    TrimStartShort(s);
    WordsOfWordsAre(TrimStart(s));
  }

  lemma {:induction false} LineReads(words: seq<string>)
    requires AllWords(words)
    ensures Line(words) == "" || !IsSpace(Line(words)[0])
    ensures WordsOf(Line(words)) == words
    decreases |words|
  {
    if words != [] {
      var w := words[0];
      assert IsWord(w) by { assert w in words; }
      assert !IsSpace(w[0]) by { assert w[0] in w; }
      if |words| == 1 {
        WordLengthOf(w, "");
        assert w + "" == w && w[|w|..] == "";
      } else {
        var rest := words[1..];
        LineReads(rest);
        WordLengthOf(w, " " + Line(rest));
        var line := w + (" " + Line(rest));
        assert line[..|w|] == w && line[|w|..] == " " + Line(rest);
        assert (" " + Line(rest))[1..] == Line(rest);
        assert TrimStart(" " + Line(rest)) == TrimStart(Line(rest)) == Line(rest);
      }
    }
  }

  /** Words written on a line are read back as they were. */
  lemma LineRoundTrip(words: seq<string>)
    requires AllWords(words)
    ensures Words(Line(words)) == words
  {
    LineReads(words);
  }

  // ----- what the command line says -----

  const U64_MAX := 0xFFFF_FFFF_FFFF_FFFF

  /** `u64::from_str`: digits, after a plus sign if there is one. */
  function ParseU64(s: string): Option<nat> {
    var digits := if s != "" && s[0] == '+' then s[1..] else s;
    if digits == "" || !Digits(digits) || NumberOf(digits) > U64_MAX then None else Some(NumberOf(digits))
  }

  /** A number is read exactly as its decimal, with any zeros before it and at
      most one plus sign before those, up to the largest of 64 bits. */
  lemma ParseU64Means(s: string, n: nat)
    ensures ParseU64(s) == Some(n) <==>
      n <= U64_MAX && exists k: nat :: s == Zeros(k) + Decimal(n) || s == "+" + (Zeros(k) + Decimal(n))
  {
    if ParseU64(s) == Some(n) {
      var digits := if s[0] == '+' then s[1..] else s;
      assert s == digits || s == "+" + digits;
      var k := DigitsAreDecimal(digits);
    }
    if k: nat :| s == Zeros(k) + Decimal(n) || s == "+" + (Zeros(k) + Decimal(n)) {
      NumberOfZeros(k, Decimal(n));
      NumberOfDecimal(n);
      var digits := Zeros(k) + Decimal(n);
      assert Digits(digits) && digits != "" && digits[0] in digits;
      assert ("+" + digits)[1..] == digits;
    }
  }

  const RESUME := "resume="
  const OFFSET := "resume_offset="

  predicate IsOffset(w: string) { StartsWith(w, OFFSET) }

  predicate IsResume(w: string) { !IsOffset(w) && StartsWith(w, RESUME) }

  /** The last `resume=` wins. */
  function Resume(words: seq<string>): Option<string> {
    if words == [] then None
    else
      var front, last := words[..|words| - 1], words[|words| - 1];
      if IsResume(last) then Some(last[|RESUME|..]) else Resume(front)
  }

  /** The last `resume_offset=` wins, a number or not. */
  function Offset(words: seq<string>): Option<nat> {
    if words == [] then None
    else
      var front, last := words[..|words| - 1], words[|words| - 1];
      if IsOffset(last) then ParseU64(last[|OFFSET|..]) else Offset(front)
  }

  /** The last word that starts with `resume=` has the value after it. */
  predicate LastResume(words: seq<string>, value: string, i: nat) {
    i < |words| && words[i] == "resume=" + value && forall j | i < j < |words| :: !("resume=" <= words[j])
  }

  /** What is read is what the last word that starts with `resume=` says. */
  lemma {:induction false} ResumeMeans(words: seq<string>, value: string)
    ensures Resume(words) == Some(value) <==> exists i: nat :: LastResume(words, value, i)
    ensures Resume(words).None? <==> forall i | 0 <= i < |words| :: !("resume=" <= words[i])
  {
    if words != [] {
      var n := |words| - 1;
      ResumeMeans(words[..n], value);
      ResumePrefix(words[n]);
      if "resume=" <= words[n] {
        assert words[n] == "resume=" + value <==> LastResume(words, value, n);
      } else {
        if i: nat :| LastResume(words, value, i) {
          assert LastResume(words[..n], value, i);
        }
        if i: nat :| LastResume(words[..n], value, i) {
          assert LastResume(words, value, i);
        }
        assert forall i | 0 <= i < n :: words[..n][i] == words[i];
      }
    }
  }

  lemma ResumePrefix(w: string)
    ensures IsResume(w) <==> "resume=" <= w
    ensures "resume=" <= w ==> w == "resume=" + w[|RESUME|..]
  {
    assert OFFSET[6] == '_' && RESUME[6] == '=';
    assert OFFSET <= w ==> w[6] == '_';
    assert RESUME <= w ==> w[6] == '=';
  }

  /** The last word that starts with `resume_offset=` has the number after it. */
  predicate LastOffset(words: seq<string>, n: nat, i: nat) {
    && i < |words| && "resume_offset=" <= words[i]
    && ParseU64(words[i][|"resume_offset="|..]) == Some(n)
    && forall j | i < j < |words| :: !("resume_offset=" <= words[j])
  }

  /** The offset is what that word says, if it is a number. */
  lemma {:induction false} OffsetMeans(words: seq<string>, n: nat)
    ensures Offset(words) == Some(n) <==> exists i: nat :: LastOffset(words, n, i)
  {
    if words != [] {
      var last := |words| - 1;
      OffsetMeans(words[..last], n);
      if "resume_offset=" <= words[last] {
        assert ParseU64(words[last][|OFFSET|..]) == Some(n) <==> LastOffset(words, n, last);
      } else {
        if i: nat :| LastOffset(words, n, i) {
          assert LastOffset(words[..last], n, i);
        }
        if i: nat :| LastOffset(words[..last], n, i) {
          assert LastOffset(words, n, i);
        }
      }
    }
  }

  method ResumeFromCmdline(cmdline: string) returns (resume: Option<string>, offset: Option<nat>)
    ensures resume == Resume(Words(cmdline)) && offset == Offset(Words(cmdline))
  {
    resume, offset := None, None;
    var words := Words(cmdline);
    for i := 0 to |words|
      invariant resume == Resume(words[..i]) && offset == Offset(words[..i])
    {
      assert words[..i + 1][..i] == words[..i];
      if StartsWith(words[i], OFFSET) {
        offset := ParseU64(words[i][|OFFSET|..]);
      } else if StartsWith(words[i], RESUME) {
        resume := Some(words[i][|RESUME|..]);
      }
    }
    assert words[..|words|] == words;
  }

  // ----- the plans -----

  const DELETE := "--delete-if-present="
  const APPEND := "--append="

  function Kargs(uuid: string, offset: string): seq<string> { [RESUME + ("UUID=" + uuid), OFFSET + offset] }

  function Deletions(words: seq<string>): seq<string> {
    (match Resume(words) case None => [] case Some(was) => [DELETE + (RESUME + was)])
    + (match Offset(words) case None => [] case Some(was) => [DELETE + (OFFSET + Decimal(was))])
  }

  function KargArguments(current: string, uuid: string, offset: string): seq<string> {
    ["kargs"] + Deletions(Words(current)) + [APPEND + Kargs(uuid, offset)[0], APPEND + Kargs(uuid, offset)[1]]
  }

  /** Nothing at all where there is nothing to delete. */
  function KargRemoval(current: string): seq<string> {
    if Deletions(Words(current)) == [] then [] else ["kargs"] + Deletions(Words(current))
  }

  method PlanArguments(current: string, uuid: string, offset: string) returns (args: seq<string>)
    ensures args == KargArguments(current, uuid, offset)
  {
    args := ["kargs"];
    var resume, was := ResumeFromCmdline(current);
    if resume.Some? {
      args := args + [DELETE + (RESUME + resume.value)];
    }
    if was.Some? {
      args := args + [DELETE + (OFFSET + Decimal(was.value))];
    }
    var wanted := Kargs(uuid, offset);
    for i := 0 to |wanted|
      invariant args == ["kargs"] + Deletions(Words(current)) + Appends(wanted[..i])
    {
      AppendsSnoc(wanted, i);
      args := args + [APPEND + wanted[i]];
    }
    assert wanted[..2] == wanted;
    AppendsTwo(wanted);
  }

  function Appends(words: seq<string>): seq<string> {
    if words == [] then [] else [APPEND + words[0]] + Appends(words[1..])
  }

  lemma {:induction false} AppendsSnoc(words: seq<string>, i: nat)
    requires i < |words|
    ensures Appends(words[..i + 1]) == Appends(words[..i]) + [APPEND + words[i]]
  {
    if i == 0 {
      assert words[..1][1..] == [];
    } else {
      AppendsSnoc(words[1..], i - 1);
      assert words[..i + 1][1..] == words[1..][..i] && words[..i][1..] == words[1..][..i - 1];
    }
  }

  lemma AppendsTwo(words: seq<string>)
    requires |words| == 2
    ensures Appends(words) == [APPEND + words[0], APPEND + words[1]]
  {
    assert words[1..][0] == words[1] && words[1..][1..] == [];
    assert Appends(words[1..]) == [APPEND + words[1]] + Appends(words[1..][1..]);
  }

  method PlanRemoval(current: string) returns (args: seq<string>)
    ensures args == KargRemoval(current)
  {
    args := ["kargs"];
    var resume, was := ResumeFromCmdline(current);
    if resume.Some? {
      args := args + [DELETE + (RESUME + resume.value)];
    }
    if was.Some? {
      args := args + [DELETE + (OFFSET + Decimal(was.value))];
    }
    if |args| == 1 {
      args := [];
    }
  }

  /** What is put on the command line of `rpm-ostree`: the verb, a deletion of
      what is there, and the new pair. */
  lemma PlanSays(current: string, uuid: string, offset: string)
    ensures var (resume, was) := (Resume(Words(current)), Offset(Words(current)));
      KargArguments(current, uuid, offset) ==
        ["kargs"]
        + (if resume.Some? then ["--delete-if-present=" + ("resume=" + resume.value)] else [])
        + (if was.Some? then ["--delete-if-present=" + ("resume_offset=" + Decimal(was.value))] else [])
        + ["--append=" + ("resume=" + ("UUID=" + uuid)), "--append=" + ("resume_offset=" + offset)]
  {
    var words := Words(current);
    var a := if Resume(words).Some? then [DELETE + (RESUME + Resume(words).value)] else [];
    var b := if Offset(words).Some? then [DELETE + (OFFSET + Decimal(Offset(words).value))] else [];
    SeqAssociative(["kargs"], a, b);
  }

  // ----- what rpm-ostree does with a plan -----

  function DropWord(words: seq<string>, w: string): seq<string> {
    if words == [] then []
    else if words[0] == w then words[1..]
    else [words[0]] + DropWord(words[1..], w)
  }

  /** Delete one matching word if it is there; append at the end. */
  function Execute(words: seq<string>, arg: string): seq<string> {
    if StartsWith(arg, DELETE) then DropWord(words, arg[|DELETE|..])
    else if StartsWith(arg, APPEND) then words + [arg[|APPEND|..]]
    else words
  }

  function ExecuteAll(words: seq<string>, args: seq<string>): seq<string>
    decreases |args|
  {
    if args == [] then words else ExecuteAll(Execute(words, args[0]), args[1..])
  }

  /** The command line of the next boot. */
  function Planned(current: string, args: seq<string>): string { Line(ExecuteAll(Words(current), args)) }

  // ----- lemmas on words -----

  function CountResume(words: seq<string>): nat {
    if words == [] then 0 else (if IsResume(words[0]) then 1 else 0) + CountResume(words[1..])
  }

  function CountOffset(words: seq<string>): nat {
    if words == [] then 0 else (if IsOffset(words[0]) then 1 else 0) + CountOffset(words[1..])
  }

  /** Everything on the line that is not about resuming. */
  function Others(words: seq<string>): seq<string> {
    if words == [] then []
    else (if IsResume(words[0]) || IsOffset(words[0]) then [] else [words[0]]) + Others(words[1..])
  }

  lemma Prefixes(x: string)
    ensures IsResume(RESUME + x) && IsOffset(OFFSET + x) && !IsResume(OFFSET + x) && !IsOffset(RESUME + x)
    ensures (RESUME + x)[|RESUME|..] == x && (OFFSET + x)[|OFFSET|..] == x
  {
    assert OFFSET[6] == '_' && (RESUME + x)[6] == '=';
    assert (RESUME + x)[..|RESUME|] == RESUME && (OFFSET + x)[..|OFFSET|] == OFFSET;
  }

  lemma {:induction false} DropPresent(words: seq<string>, w: string)
    requires w in words
    ensures CountResume(DropWord(words, w)) == CountResume(words) - (if IsResume(w) then 1 else 0)
    ensures CountOffset(DropWord(words, w)) == CountOffset(words) - (if IsOffset(w) then 1 else 0)
  {
    if words[0] != w {
      DropPresent(words[1..], w);
    }
  }

  lemma {:induction false} DropAbsent(words: seq<string>, w: string)
    requires w !in words
    ensures DropWord(words, w) == words
  {
    if words != [] {
      assert words[0] in words;
      assert w !in words[1..];
      DropAbsent(words[1..], w);
    }
  }

  lemma {:induction false} DropKeeps(words: seq<string>, w: string)
    ensures forall x <- DropWord(words, w) :: x in words
    ensures forall x <- words :: x != w ==> x in DropWord(words, w)
    ensures IsResume(w) || IsOffset(w) ==> Others(DropWord(words, w)) == Others(words)
  {
    if words != [] {
      DropKeeps(words[1..], w);
    }
  }

  lemma ListsAppend(a: seq<string>, b: seq<string>)
    ensures CountResume(a + b) == CountResume(a) + CountResume(b)
    ensures CountOffset(a + b) == CountOffset(a) + CountOffset(b)
    ensures Others(a + b) == Others(a) + Others(b)
  {
    CountsAppend(a, b);
    OthersAppend(a, b);
  }

  lemma {:induction false} CountsAppend(a: seq<string>, b: seq<string>)
    ensures CountResume(a + b) == CountResume(a) + CountResume(b)
    ensures CountOffset(a + b) == CountOffset(a) + CountOffset(b)
  {
    if a == [] {
      assert a + b == b;
    } else {
      assert (a + b)[0] == a[0] && (a + b)[1..] == a[1..] + b;
      CountsAppend(a[1..], b);
    }
  }

  lemma {:induction false} OthersAppend(a: seq<string>, b: seq<string>)
    ensures Others(a + b) == Others(a) + Others(b)
  {
    if a == [] {
      assert a + b == b;
    } else {
      var head := if IsResume(a[0]) || IsOffset(a[0]) then [] else [a[0]];
      assert (a + b)[0] == a[0] && (a + b)[1..] == a[1..] + b;
      OthersAppend(a[1..], b);
      SeqAssociative(head, Others(a[1..]), Others(b));
    }
  }

  /** They are, in order, the words that start with neither name. */
  lemma OthersMean(a: seq<string>, w: string, b: seq<string>)
    ensures var mine := "resume=" <= w || "resume_offset=" <= w;
      Others(a + [w] + b) == Others(a) + (if mine then [] else [w]) + Others(b)
  {
    ResumePrefix(w);
    OthersAppend(a + [w], b);
    OthersAppend(a, [w]);
    assert Others([w][1..]) == [];
  }

  lemma FrontAndLast(words: seq<string>)
    requires words != []
    ensures words == words[..|words| - 1] + [words[|words| - 1]]
  {}

  /** The value read is a word of the line, and is read if there is one. */
  lemma {:induction false} ResumeIsAWord(words: seq<string>)
    ensures Resume(words).Some? <==> CountResume(words) > 0
    ensures Resume(words).Some? ==> RESUME + Resume(words).value in words
  {
    if words != [] {
      var front, last := words[..|words| - 1], words[|words| - 1];
      ResumeIsAWord(front);
      FrontAndLast(words);
      ListsAppend(front, [last]);
      assert CountResume([last][1..]) == 0;
      if IsResume(last) {
        assert last == RESUME + last[|RESUME|..];
      }
    }
  }

  /** An offset spelled as its own number is printed. */
  predicate CanonicalWord(w: string) {
    IsOffset(w) && ParseU64(w[|OFFSET|..]).Some? &&
    w == OFFSET + Decimal(ParseU64(w[|OFFSET|..]).value)
  }

  predicate Canonical(words: seq<string>) { forall w <- words :: IsOffset(w) ==> CanonicalWord(w) }

  /** At most one `resume=`, at most one `resume_offset=`, the offset spelled as
      its number is printed. */
  predicate AtMostOnePair(words: seq<string>) {
    CountResume(words) <= 1 && CountOffset(words) <= 1 && Canonical(words)
  }

  /** The word an offset deletion names. */
  function OffsetWord(words: seq<string>): Option<string> {
    match Offset(words) case None => None case Some(n) => Some(OFFSET + Decimal(n))
  }

  lemma {:induction false} NoOffsets(words: seq<string>)
    requires CountOffset(words) == 0
    ensures Offset(words).None? && forall w <- words :: !IsOffset(w)
  {
    if words != [] {
      var front, last := words[..|words| - 1], words[|words| - 1];
      FrontAndLast(words);
      ListsAppend(front, [last]);
      assert CountOffset([last][1..]) == 0;
      NoOffsets(front);
      assert forall w <- words :: w in front || w == last;
    }
  }

  /** The one offset of a line, and the one it reads. */
  predicate OnlyOffset(words: seq<string>, w: string) {
    && w in words && IsOffset(w) && Offset(words) == ParseU64(w[|OFFSET|..])
    && forall x <- words :: IsOffset(x) ==> x == w
  }

  lemma {:induction false} SomeOffset(words: seq<string>)
    requires CountOffset(words) == 1
    ensures exists w :: OnlyOffset(words, w)
  {
    var front, last := words[..|words| - 1], words[|words| - 1];
    FrontAndLast(words);
    ListsAppend(front, [last]);
    assert CountOffset([last][1..]) == 0;
    if IsOffset(last) {
      NoOffsets(front);
      assert OnlyOffset(words, last);
    } else {
      SomeOffset(front);
      var w :| OnlyOffset(front, w);
      assert OnlyOffset(words, w);
    }
  }

  /** One deletion empties the line of offsets exactly when there was at most
      one, canonically spelled. */
  lemma OffsetDeletion(words: seq<string>)
    ensures var w := OffsetWord(words);
      (w.Some? && w.value in words ==> CountOffset(words) > 0)
      && (CountOffset(words) == (if w.Some? && w.value in words then 1 else 0)
          <==> CountOffset(words) <= 1 && Canonical(words))
  {
    var w := OffsetWord(words);
    if w.Some? && w.value in words {
      Prefixes(Decimal(Offset(words).value));
      DropPresent(words, w.value);
    }
    if CountOffset(words) == 0 {
      NoOffsets(words);
    } else if CountOffset(words) == 1 {
      SomeOffset(words);
      var only :| OnlyOffset(words, only);
      if w.Some? && w.value in words {
        assert w.value == only;
      }
    }
  }

  /** The line once the deletions are done. */
  function Deleted(words: seq<string>): seq<string> {
    var once := match Resume(words) case None => words case Some(r) => DropWord(words, RESUME + r);
    match OffsetWord(words) case None => once case Some(w) => DropWord(once, w)
  }

  lemma ExecuteDelete(words: seq<string>, w: string, rest: seq<string>)
    ensures ExecuteAll(words, [DELETE + w] + rest) == ExecuteAll(DropWord(words, w), rest)
  {
    assert ([DELETE + w] + rest)[1..] == rest;
    assert (DELETE + w)[..|DELETE|] == DELETE && (DELETE + w)[|DELETE|..] == w;
  }

  lemma ExecuteAppend(words: seq<string>, w: string, rest: seq<string>)
    ensures ExecuteAll(words, [APPEND + w] + rest) == ExecuteAll(words + [w], rest)
  {
    assert ([APPEND + w] + rest)[1..] == rest;
    assert (APPEND + w)[..|APPEND|] == APPEND && (APPEND + w)[|APPEND|..] == w;
    assert DELETE[2] == 'd' && (APPEND + w)[2] == 'a';
  }

  lemma ExecuteVerb(words: seq<string>, rest: seq<string>)
    ensures ExecuteAll(words, ["kargs"] + rest) == ExecuteAll(words, rest)
  {
    assert (["kargs"] + rest)[1..] == rest;
    assert "kargs"[0] == 'k' && DELETE[0] == '-' && APPEND[0] == '-';
  }

  lemma ExecuteDeletions(words: seq<string>, rest: seq<string>)
    ensures ExecuteAll(words, Deletions(words) + rest) == ExecuteAll(Deleted(words), rest)
  {
    var a := match Resume(words) case None => [] case Some(was) => [DELETE + (RESUME + was)];
    var b := match Offset(words) case None => [] case Some(was) => [DELETE + (OFFSET + Decimal(was))];
    SeqAssociative(a, b, rest);
    var once := match Resume(words) case None => words case Some(r) => DropWord(words, RESUME + r);
    assert ExecuteAll(words, a + (b + rest)) == ExecuteAll(once, b + rest) by {
      if Resume(words).Some? {
        ExecuteDelete(words, RESUME + Resume(words).value, b + rest);
      } else {
        assert a + (b + rest) == b + rest;
      }
    }
    if Offset(words).Some? {
      ExecuteDelete(once, OFFSET + Decimal(Offset(words).value), rest);
    } else {
      assert b + rest == rest;
    }
  }

  /** What the plan leaves on the line. */
  lemma PlanLeaves(current: string, uuid: string, offset: string)
    ensures ExecuteAll(Words(current), KargArguments(current, uuid, offset))
            == Deleted(Words(current)) + Kargs(uuid, offset)
  {
    var words, kargs := Words(current), Kargs(uuid, offset);
    var tail := [APPEND + kargs[0]] + [APPEND + kargs[1]];
    assert KargArguments(current, uuid, offset) == ["kargs"] + (Deletions(words) + tail);
    ExecuteVerb(words, Deletions(words) + tail);
    ExecuteDeletions(words, tail);
    ExecuteAppend(Deleted(words), kargs[0], [APPEND + kargs[1]]);
    assert [APPEND + kargs[1]] == [APPEND + kargs[1]] + [];
    ExecuteAppend(Deleted(words) + [kargs[0]], kargs[1], []);
    assert Deleted(words) + [kargs[0]] + [kargs[1]] == Deleted(words) + kargs;
  }

  lemma RemovalLeaves(current: string)
    ensures ExecuteAll(Words(current), KargRemoval(current)) == Deleted(Words(current))
  {
    var words := Words(current);
    ExecuteDeletions(words, []);
    ExecuteVerb(words, Deletions(words));
    assert Deletions(words) + [] == Deletions(words);
  }

  /** What the deletions do to the counts and to everything else. */
  lemma DeletedCounts(words: seq<string>)
    ensures Others(Deleted(words)) == Others(words)
    ensures CountResume(Deleted(words)) == if CountResume(words) == 0 then 0 else CountResume(words) - 1
    ensures CountOffset(Deleted(words)) == 0 <==> CountOffset(words) <= 1 && Canonical(words)
    ensures forall w <- Deleted(words) :: w in words
  {
    ResumeIsAWord(words);
    var once := words;
    if Resume(words).Some? {
      var w := RESUME + Resume(words).value;
      Prefixes(Resume(words).value);
      DropPresent(words, w);
      DropKeeps(words, w);
      once := DropWord(words, w);
    }
    OffsetDeletion(words);
    if Offset(words).Some? {
      var w := OFFSET + Decimal(Offset(words).value);
      Prefixes(Decimal(Offset(words).value));
      DropKeeps(once, w);
      assert w in once <==> w in words;
      if w in once {
        DropPresent(once, w);
      } else {
        DropAbsent(once, w);
      }
    }
  }

  lemma KargsAre(uuid: string, offset: string)
    ensures var k := Kargs(uuid, offset);
      CountResume(k) == 1 && CountOffset(k) == 1 && Others(k) == []
    ensures forall front :: Resume(front + Kargs(uuid, offset)) == Some("UUID=" + uuid)
                         && Offset(front + Kargs(uuid, offset)) == ParseU64(offset)
  {
    var k := Kargs(uuid, offset);
    Prefixes("UUID=" + uuid);
    Prefixes(offset);
    assert k[1..] == [k[1]] && k[1..][1..] == [];
    assert CountResume(k[1..][1..]) == 0 && CountOffset(k[1..][1..]) == 0 && Others(k[1..][1..]) == [];
    assert CountResume(k[1..]) == 0 && CountOffset(k[1..]) == 1 && Others(k[1..]) == [];
    forall front
      ensures Resume(front + k) == Some("UUID=" + uuid) && Offset(front + k) == ParseU64(offset)
    {
      var all := front + k;
      assert all[..|all| - 1] == front + [k[0]];
      assert (front + [k[0]])[..|front|] == front;
    }
  }

  // ----- the theorems -----

  lemma KargsAreWords(uuid: string, offset: string)
    requires SpaceFree(uuid) && SpaceFree(offset)
    ensures AllWords(Kargs(uuid, offset))
  {
    var k := Kargs(uuid, offset);
    assert IsWord(k[0]) && IsWord(k[1]);
  }

  lemma PlannedWords(current: string, uuid: string, offset: string)
    requires SpaceFree(uuid) && SpaceFree(offset)
    ensures Words(Planned(current, KargArguments(current, uuid, offset)))
            == Deleted(Words(current)) + Kargs(uuid, offset)
  {
    WordsAreWords(current);
    DeletedCounts(Words(current));
    PlanLeaves(current, uuid, offset);
    KargsAreWords(uuid, offset);
    LineRoundTrip(Deleted(Words(current)) + Kargs(uuid, offset));
  }

  /** The replacement: whatever the command line said, the planned one reads as
      exactly the given UUID and offset, with every other word in place and in
      order; one pair remains exactly when at most one stood there, its offset
      spelled as its number is printed. */
  lemma PlanReplaces(current: string, uuid: string, offset: string)
    requires SpaceFree(uuid) && SpaceFree(offset)
    ensures var before := Words(current);
      var after := Words(Planned(current, KargArguments(current, uuid, offset)));
      && Resume(after) == Some("UUID=" + uuid) && Offset(after) == ParseU64(offset)
      && Others(after) == Others(before)
      && (CountResume(after) == 1 && CountOffset(after) == 1 <==> AtMostOnePair(before))
  {
    var before := Words(current);
    PlannedWords(current, uuid, offset);
    DeletedCounts(before);
    KargsAre(uuid, offset);
    ListsAppend(Deleted(before), Kargs(uuid, offset));
  }

  lemma {:induction false} OnlyOthers(words: seq<string>)
    requires CountResume(words) == 0 && CountOffset(words) == 0
    ensures Others(words) == words && Resume(words).None? && Offset(words).None?
  {
    ResumeIsAWord(words);
    NoOffsets(words);
    OthersAll(words);
  }

  lemma {:induction false} OthersAll(words: seq<string>)
    requires CountResume(words) == 0 && CountOffset(words) == 0
    ensures Others(words) == words
  {
    if words != [] {
      OthersAll(words[1..]);
    }
  }

  /** The removal: the resume arguments are all gone, and the line is its other
      words, exactly when at most one canonical pair stood there. It plans no
      work exactly when the line says nothing about resuming. */
  lemma RemovalRemoves(current: string)
    ensures var before := Words(current); var after := Words(Planned(current, KargRemoval(current)));
      && Others(after) == Others(before)
      && (CountResume(after) == 0 && CountOffset(after) == 0 <==> AtMostOnePair(before))
      && (AtMostOnePair(before) ==> after == Others(before) && Resume(after).None? && Offset(after).None?)
    ensures KargRemoval(current) == [] <==> Resume(Words(current)).None? && Offset(Words(current)).None?
  {
    var before := Words(current);
    WordsAreWords(current);
    RemovalLeaves(current);
    DeletedCounts(before);
    LineRoundTrip(Deleted(before));
    if AtMostOnePair(before) {
      OnlyOthers(Deleted(before));
    }
  }

  lemma TwoResumes()
    ensures var words := ["resume=a", "resume=b"]; Words(Line(words)) == words && CountResume(words) == 2
  {
    var a, b := "resume=a", "resume=b";
    assert a == RESUME + "a" && b == RESUME + "b";
    Prefixes("a");
    Prefixes("b");
    assert IsWord(a) && IsWord(b);
    LineRoundTrip([a, b]);
    assert [a, b][1..] == [b] && [b][1..] == [];
  }

  lemma SecondStays(line: string)
    requires CountResume(Words(line)) == 2
    ensures var planned := Words(Planned(line, KargArguments(line, "u", "1")));
      var removed := Words(Planned(line, KargRemoval(line)));
      && !(CountResume(planned) == 1 && CountOffset(planned) == 1)
      && !(CountResume(removed) == 0 && CountOffset(removed) == 0)
  {
    PlanReplaces(line, "u", "1");
    RemovalRemoves(line);
  }

  /** A line that names two devices keeps one of them through either plan. */
  lemma ASecondResumeStays()
    ensures var line := Line(["resume=a", "resume=b"]);
      var planned := Words(Planned(line, KargArguments(line, "u", "1")));
      var removed := Words(Planned(line, KargRemoval(line)));
      && !(CountResume(planned) == 1 && CountOffset(planned) == 1)
      && !(CountResume(removed) == 0 && CountOffset(removed) == 0)
  {
    TwoResumes();
    SecondStays(Line(["resume=a", "resume=b"]));
  }

  /** On and then off: from at most one canonical pair, with a canonical offset,
      the line ends as its other words. */
  lemma OffUndoesOn(current: string, uuid: string, offset: nat)
    requires SpaceFree(uuid) && offset <= U64_MAX && AtMostOnePair(Words(current))
    ensures var on := Planned(current, KargArguments(current, uuid, Decimal(offset)));
      Words(Planned(on, KargRemoval(on))) == Others(Words(current))
  {
    var o := Decimal(offset);
    var on := Planned(current, KargArguments(current, uuid, o));
    DecimalParses(offset);
    PlanReplaces(current, uuid, o);
    PlannedWords(current, uuid, o);
    DeletedCounts(Words(current));
    NoOffsets(Deleted(Words(current)));
    Prefixes("UUID=" + uuid);
    Prefixes(o);
    assert Canonical(Words(on)) by {
      forall w | w in Words(on) && IsOffset(w) ensures CanonicalWord(w) {
        assert w in Deleted(Words(current)) || w == Kargs(uuid, o)[0] || w == Kargs(uuid, o)[1];
      }
    }
    RemovalRemoves(on);
  }

  lemma DecimalParses(n: nat)
    requires n <= U64_MAX
    ensures ParseU64(Decimal(n)) == Some(n) && SpaceFree(Decimal(n))
  {
    NumberOfDecimal(n);
    assert Decimal(n)[0] in Decimal(n);
  }
}
