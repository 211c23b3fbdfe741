/** What a title of the boot menu is made of, in characters: which lines are
    fields, what names a deployment, and when a title says a slot
    (`src/bootentries.rs`). */
module BootTitles {
  import opened Text
  import opened Timestamp
  import opened BootEntries
  import KernelArgs

  // ----- fields -----

  /** A line says a value under a key: white space around and at least one
      between, and nothing else. */
  ghost predicate Says(line: string, key: string, value: string) {
    Trimmed(value) && exists left, gap, right ::
      Blank(left) && Blank(gap) && Blank(right) && gap != "" && line == left + key + gap + value + right
  }

  lemma FieldIsSaid(line: string, key: string)
    requires IsField(line, key)
    ensures Says(line, key, FieldValue(line, key))
  {
    var left := TrimStartDecomposes(line);
    var s := TrimStart(line);
    var rest := s[|key|..];
    var l, right := TrimDecomposes(rest);
    TrimIsTrimmed(rest);
    if l == "" {
      assert rest == Trim(rest) + right;
      assert rest[0] == s[|key|];
      if Trim(rest) == "" {
        assert line == left + key + right + "" + "";
      } else {
        assert false;
      }
    } else {
      assert s == key + (l + Trim(rest) + right);
      assert line == left + key + l + Trim(rest) + right;
    }
  }

  lemma StartOf(left: string, s: string)
    requires Blank(left) && s != "" && !IsSpace(s[0])
    ensures TrimStart(left + s) == s
  {
    TrimStartAbsorbs(left, s);
  }

  lemma SaidIsField(line: string, key: string, value: string)
    requires key != "" && !IsSpace(key[0]) && Says(line, key, value)
    ensures IsField(line, key) && FieldValue(line, key) == value
  {
    var left, gap, right :|
      Blank(left) && Blank(gap) && Blank(right) && gap != "" && line == left + key + gap + value + right;
    var s := key + gap + value + right;
    assert line == left + s && s[0] == key[0];
    StartOf(left, s);
    assert s[|key|] == gap[0] && gap[0] in gap;
    assert s[|key|..] == gap + value + right;
    TrimAbsorbs(gap, value, right);
  }

  ghost predicate SaysNothing(line: string, key: string) { forall value :: !Says(line, key, value) }

  lemma SaysNothingMeans(line: string, key: string)
    requires key != "" && !IsSpace(key[0])
    ensures SaysNothing(line, key) <==> !IsField(line, key)
  {
    if IsField(line, key) {
      FieldIsSaid(line, key);
    } else {
      forall value ensures !Says(line, key, value) {
        if Says(line, key, value) {
          SaidIsField(line, key, value);
        }
      }
    }
  }

  /** The first line that says something under the key says this. */
  ghost predicate FirstSays(lines: seq<string>, key: string, value: string, i: nat) {
    i < |lines| && Says(lines[i], key, value) && forall j | 0 <= j < i :: SaysNothing(lines[j], key)
  }

  /** An entry's field is what its first line that says something under the key
      says. */
  lemma {:induction false} FieldMeans(lines: seq<string>, key: string, value: string)
    requires key != "" && !IsSpace(key[0])
    ensures Field(lines, key) == Some(value) <==> exists i: nat :: FirstSays(lines, key, value, i)
  {
    if lines != [] {
      SaysNothingMeans(lines[0], key);
      FieldMeans(lines[1..], key, value);
      if IsField(lines[0], key) {
        FieldIsSaid(lines[0], key);
        OneValue(lines[0], key, value);
        assert Says(lines[0], key, value) <==> FirstSays(lines, key, value, 0);
      } else {
        FirstSaysLater(lines, key, value);
      }
    }
  }

  lemma OneValue(line: string, key: string, value: string)
    requires key != "" && !IsSpace(key[0]) && IsField(line, key)
    ensures Says(line, key, value) <==> FieldValue(line, key) == value
  {
    FieldIsSaid(line, key);
    if Says(line, key, value) {
      SaidIsField(line, key, value);
    }
  }

  lemma FirstSaysLater(lines: seq<string>, key: string, value: string)
    requires lines != [] && SaysNothing(lines[0], key)
    ensures (exists i: nat :: FirstSays(lines, key, value, i)) <==>
            exists i: nat :: FirstSays(lines[1..], key, value, i)
  {
    if i: nat :| FirstSays(lines, key, value, i) {
      assert FirstSays(lines[1..], key, value, i - 1);
    }
    if i: nat :| FirstSays(lines[1..], key, value, i) {
      assert forall j | 0 < j < i + 1 :: lines[j] == lines[1..][j - 1];
      assert FirstSays(lines, key, value, i + 1);
    }
  }

  /** The deployment an entry boots: what follows `ostree=` in the first word of
      its options that starts so. */
  predicate FirstNames(words: seq<string>, karg: string, i: nat) {
    i < |words| && words[i] == "ostree=" + karg && forall j | 0 <= j < i :: !("ostree=" <= words[j])
  }

  lemma {:induction false} FirstKargMeans(words: seq<string>, karg: string)
    ensures FirstKarg(words) == Some(karg) <==> exists i: nat :: FirstNames(words, karg, i)
  {
    if words != [] {
      FirstKargMeans(words[1..], karg);
      if "ostree=" <= words[0] {
        assert words[0] == "ostree=" + words[0][|KARG|..];
        assert words[0] == "ostree=" + karg <==> FirstNames(words, karg, 0);
      } else {
        if i: nat :| FirstNames(words, karg, i) {
          assert FirstNames(words[1..], karg, i - 1);
        }
        if i: nat :| FirstNames(words[1..], karg, i) {
          assert forall j | 0 < j < i + 1 :: words[j] == words[1..][j - 1];
          assert FirstNames(words, karg, i + 1);
        }
      }
    }
  }

  // ----- slots -----

  /** A number that fits 32 bits. */
  predicate Reads(word: string, n: nat) { n <= 0xFFFF_FFFF && KernelArgs.ParseU64(word) == Some(n) }

  lemma NumberHolds(word: string)
    requires ParseU32(word).Some?
    ensures ':' !in word && '/' !in word && word != "" && !IsSpace(word[|word| - 1])
  {
    var digits := if word[0] == '+' then word[1..] else word;
    DigitsHold(digits, ':');
    DigitsHold(digits, '/');
    assert word == digits || word == "+" + digits;
    assert digits[|digits| - 1] in digits;
  }

  /** The title ends in `(ostree:`, a number and a parenthesis, but for white
      space. */
  ghost predicate HasSlot(title: string, n: nat) {
    exists head, word, right ::
      Reads(word, n) && Blank(right) && title == head + "(ostree:" + word + ")" + right
  }

  lemma {:induction false} AfterLastFound(s: string, mark: string) returns (head: string)
    requires AfterLast(s, mark).Some?
    ensures s == head + mark + AfterLast(s, mark).value
  {
    if EndsWith(s, mark) {
      head := s[..|s| - |mark|];
      assert head + mark + "" == head + mark;
    } else {
      var n := |s| - 1;
      head := AfterLastFound(s[..n], mark);
      var tail := AfterLast(s[..n], mark).value;
      SeqAssociative(head + mark, tail, [s[n]]);
      assert s == s[..n] + [s[n]];
    }
  }

  lemma SlotIsThere(title: string)
    requires SuffixIndex(title).Some?
    ensures HasSlot(title, SuffixIndex(title).value)
  {
    var right := TrimEndDecomposes(title);
    var t := TrimEnd(title);
    var s := t[..|t| - 1];
    var head := AfterLastFound(s, MARK);
    var word := AfterLast(s, MARK).value;
    assert t == s + ")";
    assert title == head + "(ostree:" + word + ")" + right;
    assert Reads(word, SuffixIndex(title).value);
  }

  lemma SlotIsFound(title: string, n: nat)
    requires HasSlot(title, n)
    ensures SuffixIndex(title) == Some(n)
  {
    var head, word, right :| Reads(word, n) && Blank(right) && title == head + "(ostree:" + word + ")" + right;
    NumberHolds(word);
    var t := head + MARK + word + ")";
    assert title == t + right && t[|t| - 1] == ')';
    TrimEndAbsorbs(t, right);
    AfterLastOf(head, word);
    SlotReads(head + MARK + word, word);
  }

  lemma SlotMeans(title: string, n: nat)
    ensures SuffixIndex(title) == Some(n) <==> HasSlot(title, n)
  {
    if SuffixIndex(title) == Some(n) {
      SlotIsThere(title);
    }
    if HasSlot(title, n) {
      SlotIsFound(title, n);
    }
  }

  // ----- the deployment -----

  /** The number after the karg's last slash, or the whole of a karg without
      one. */
  ghost predicate Numbered(karg: string, n: nat) {
    exists head, word :: Reads(word, n) && karg == head + word && (head == "" || head[|head| - 1] == '/')
  }

  lemma {:induction false} AfterLastSlashOf(head: string, word: string)
    requires '/' !in word && (head == "" || head[|head| - 1] == '/')
    ensures AfterLastSlash(head + word) == word
  {
    if word == "" {
      assert head + word == head;
    } else {
      var n, s := |word| - 1, head + word;
      assert s[..|s| - 1] == head + word[..n] && s[|s| - 1] == word[n];
      AfterLastSlashOf(head, word[..n]);
    }
  }

  lemma {:induction false} AfterLastSlashFound(s: string) returns (head: string)
    ensures s == head + AfterLastSlash(s) && (head == "" || head[|head| - 1] == '/')
  {
    if s == "" || s[|s| - 1] == '/' {
      head := s;
    } else {
      var n := |s| - 1;
      head := AfterLastSlashFound(s[..n]);
      SeqAssociative(head, AfterLastSlash(s[..n]), [s[n]]);
      assert s == s[..n] + [s[n]];
    }
  }

  lemma KargIndexMeans(karg: string, n: nat)
    ensures KargIndex(karg) == Some(n) <==> Numbered(karg, n)
  {
    if KargIndex(karg) == Some(n) {
      var head := AfterLastSlashFound(karg);
      assert Reads(AfterLastSlash(karg), n);
    }
    if Numbered(karg, n) {
      var head, word :| Reads(word, n) && karg == head + word && (head == "" || head[|head| - 1] == '/');
      NumberHolds(word);
      AfterLastSlashOf(head, word);
    }
  }

  predicate InQuotes(value: string, q: char) { |value| >= 2 && value[0] == q && value[|value| - 1] == q }

  /** How a name may stand in os-release: between double or single quotes, or
      bare. */
  predicate Spelled(value: string, name: string) {
    name != "" &&
    (value == "\"" + name + "\"" || value == "'" + name + "'"
     || (value == name && !InQuotes(value, '"') && !InQuotes(value, '\'')))
  }

  lemma UnquoteMeans(value: string, q: char, name: string)
    ensures Unquote(value, q) == Some(name) <==> value == [q] + name + [q]
    ensures Unquote(value, q).Some? <==> InQuotes(value, q)
  {
    if InQuotes(value, q) {
      assert value == [q] + value[1..|value| - 1] + [q];
    }
  }

  lemma PrettyOfMeans(value: string, name: string)
    ensures PrettyOf(value) == Some(name) <==> Spelled(value, name)
  {
    UnquoteMeans(value, '"', name);
    UnquoteMeans(value, '\'', name);
  }

  /** The first line that begins with `PRETTY_NAME=`, white space aside, spells
      the name. */
  predicate FirstSpells(lines: seq<string>, name: string, i: nat) {
    && i < |lines| && "PRETTY_NAME=" <= Trim(lines[i])
    && Spelled(Trim(Trim(lines[i])[|"PRETTY_NAME="|..]), name)
    && forall j | 0 <= j < i :: !("PRETTY_NAME=" <= Trim(lines[j]))
  }

  ghost predicate FileNames(file: Option<string>, name: string) {
    file.Some? && exists i: nat :: FirstSpells(Lines(file.value), name, i)
  }

  lemma {:induction false} PrettyNameMeans(lines: seq<string>, name: string)
    ensures PrettyName(lines) == Some(name) <==> exists i: nat :: FirstSpells(lines, name, i)
  {
    if lines != [] {
      PrettyNameMeans(lines[1..], name);
      if "PRETTY_NAME=" <= Trim(lines[0]) {
        PrettyOfMeans(Trim(Trim(lines[0])[|PRETTY|..]), name);
        assert Spelled(Trim(Trim(lines[0])[|PRETTY|..]), name) <==> FirstSpells(lines, name, 0);
      } else {
        if i: nat :| FirstSpells(lines, name, i) {
          assert FirstSpells(lines[1..], name, i - 1);
        }
        if i: nat :| FirstSpells(lines[1..], name, i) {
          assert forall j | 0 < j < i + 1 :: lines[j] == lines[1..][j - 1];
          assert FirstSpells(lines, name, i + 1);
        }
      }
    }
  }

  /** What a deployment calls itself: its image's own file first, and the local
      one only where that names nothing. */
  ghost predicate Called(release: Release, name: string) {
    || FileNames(release.usr, name)
    || ((forall other :: !FileNames(release.usr, other)) && FileNames(release.etc, name))
  }

  lemma NameInMeans(file: Option<string>)
    ensures forall name :: NameIn(file) == Some(name) <==> FileNames(file, name)
  {
    forall name ensures NameIn(file) == Some(name) <==> FileNames(file, name) {
      if file.Some? {
        PrettyNameMeans(Lines(file.value), name);
      }
    }
  }

  ghost predicate Deployed(roots: Releases, karg: string, name: string) {
    exists slashes, dir ::
      && karg == slashes + dir && (forall c <- slashes :: c == '/') && (dir == "" || dir[0] != '/')
      && dir in roots && Called(roots[dir], name)
  }

  lemma {:induction false} TrimSlashesMeans(s: string) returns (slashes: string)
    ensures s == slashes + TrimSlashes(s) && forall c <- slashes :: c == '/'
    ensures TrimSlashes(s) == "" || TrimSlashes(s)[0] != '/'
  {
    slashes := "";
    if s != "" && s[0] == '/' {
      var more := TrimSlashesMeans(s[1..]);
      slashes := "/" + more;
    }
  }

  lemma {:induction false} TrimSlashesOf(slashes: string, dir: string)
    requires (forall c <- slashes :: c == '/') && (dir == "" || dir[0] != '/')
    ensures TrimSlashes(slashes + dir) == dir
  {
    if slashes == "" {
      assert slashes + dir == dir;
    } else {
      assert slashes[0] in slashes && (slashes + dir)[1..] == slashes[1..] + dir;
      assert forall c <- slashes[1..] :: c in slashes;
      TrimSlashesOf(slashes[1..], dir);
    }
  }

  lemma DeploymentNameMeans(roots: Releases, karg: string, name: string)
    ensures DeploymentName(roots, karg) == Some(name) <==> Deployed(roots, karg, name)
  {
    var slashes := TrimSlashesMeans(karg);
    var dir := TrimSlashes(karg);
    if dir in roots {
      NameInMeans(roots[dir].usr);
      NameInMeans(roots[dir].etc);
    }
    if Deployed(roots, karg, name) {
      var s, d :| karg == s + d && (forall c <- s :: c == '/') && (d == "" || d[0] != '/')
                  && d in roots && Called(roots[d], name);
      TrimSlashesOf(s, d);
    }
  }

  // ----- the title -----

  /** The title a deployment's entry should carry: its name, and the slot the
      karg ends in where the title has one now. */
  ghost predicate TitleIs(current: string, name: string, karg: string, title: string) {
    if exists n :: HasSlot(current, n)
    then exists n :: Numbered(karg, n) && title == name + " (ostree:" + Decimal(n) + ")"
    else title == name
  }

  lemma TitleMeans(current: string, name: string, karg: string, title: string)
    ensures TitleFor(current, name, karg) == Some(title) <==> TitleIs(current, name, karg, title)
  {
    forall n: nat ensures SuffixIndex(current) == Some(n) <==> HasSlot(current, n) {
      SlotMeans(current, n);
    }
    forall n: nat ensures KargIndex(karg) == Some(n) <==> Numbered(karg, n) {
      KargIndexMeans(karg, n);
    }
    forall n: nat ensures Suffixed(name, n) == name + " (ostree:" + Decimal(n) + ")" {
      SuffixedIs(name, n);
    }
  }

  lemma SuffixedIs(name: string, n: nat)
    ensures Suffixed(name, n) == name + " (ostree:" + Decimal(n) + ")"
  {
    assert " " + MARK == " (ostree:";
  }

  /** An entry boots a deployment of that name: its options name the deployment
      and the deployment names itself. */
  ghost predicate BootsNamed(lines: seq<string>, roots: Releases, options: string, karg: string, name: string) {
    && (exists i: nat :: FirstSays(lines, "options", options, i))
    && (exists i: nat :: FirstNames(KernelArgs.Words(options), karg, i))
    && Deployed(roots, karg, name)
  }

  lemma BootsMeans(lines: seq<string>, roots: Releases, karg: string, name: string)
    ensures Boots(lines, roots) == Some((karg, name)) <==>
            exists options :: BootsNamed(lines, roots, options, karg, name)
  {
    DeploymentNameMeans(roots, karg, name);
    if Boots(lines, roots) == Some((karg, name)) {
      OptionsMean(lines, Field(lines, OPTIONS).value, karg);
      assert BootsNamed(lines, roots, Field(lines, OPTIONS).value, karg, name);
    }
    if options :| BootsNamed(lines, roots, options, karg, name) {
      OptionsMean(lines, options, karg);
      BootsBy(lines, roots, options, karg, name);
    }
  }

  lemma OptionsMean(lines: seq<string>, options: string, karg: string)
    ensures Field(lines, OPTIONS) == Some(options) <==> exists i: nat :: FirstSays(lines, "options", options, i)
    ensures OstreeKarg(options) == Some(karg) <==> exists i: nat :: FirstNames(KernelArgs.Words(options), karg, i)
  {
    FieldMeans(lines, OPTIONS, options);
    FirstKargMeans(KernelArgs.Words(options), karg);
  }

  lemma BootsBy(lines: seq<string>, roots: Releases, options: string, karg: string, name: string)
    requires Field(lines, OPTIONS) == Some(options) && OstreeKarg(options) == Some(karg)
    requires DeploymentName(roots, karg) == Some(name)
    ensures Boots(lines, roots) == Some((karg, name))
  {}

  /** What is wanted of an entry: there is a title, and the entry boots a
      deployment whose name and slot make the other. */
  lemma WantedMeans(lines: seq<string>, roots: Releases, current: string, title: string)
    ensures Wanted(lines, roots) == Some(Titles(current, title)) <==>
      && (exists i: nat :: FirstSays(lines, "title", current, i))
      && exists options, karg, name ::
           BootsNamed(lines, roots, options, karg, name) && TitleIs(current, name, karg, title)
  {
    FieldMeans(lines, TITLE, current);
    if Wanted(lines, roots) == Some(Titles(current, title)) {
      var (karg, name) := Boots(lines, roots).value;
      BootsMeans(lines, roots, karg, name);
      TitleMeans(current, name, karg, title);
    }
    if options, karg, name :| BootsNamed(lines, roots, options, karg, name) && TitleIs(current, name, karg, title) {
      BootsMeans(lines, roots, karg, name);
      TitleMeans(current, name, karg, title);
      assert Boots(lines, roots) == Some((karg, name));
    }
  }

  // ----- the rewrite -----

  lemma {:induction false} RewriteAt(lines: seq<string>, title: string, i: nat)
    requires i < |lines|
    ensures |DropCrs(RewriteLines(lines, title))| == |lines|
    ensures DropCrs(RewriteLines(lines, title))[i] == DropCr(RewriteLine(lines[i], title))
  {
    var rest := RewriteLines(lines[1..], title);
    assert ([RewriteLine(lines[0], title)] + rest)[1..] == rest;
    if i > 0 {
      RewriteAt(lines[1..], title, i - 1);
    } else if |lines| > 1 {
      RewriteAt(lines[1..], title, 0);
    }
  }

  /** The rewrite line by line: every line that says a title becomes the title,
      and every other line is read again as it was, but for a carriage return at
      its end. */
  lemma RewriteEach(body: string, title: string, i: nat)
    requires '\n' !in title && i < |Lines(body)|
    ensures var line, after := Lines(body)[i], Lines(Rewritten(body, title));
      && |after| == |Lines(body)|
      && after[i] == DropCr(if SaysNothing(line, "title") then line else "title " + title)
  {
    RewrittenReads(body, title);
    RewriteAt(Lines(body), title, i);
    SaysNothingMeans(Lines(body)[i], TITLE);
  }
}
