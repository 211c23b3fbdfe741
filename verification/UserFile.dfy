/** The account file of an installed machine (`user_file` in `src/install.rs`)
    and the shell that reads it (Shell Command Language of POSIX.1-2017,
    sections 2.2.1 and 2.2.2). */
module UserFile {
  import opened Text

  // ----- the writer -----

  datatype Account = Account(name: string, passwordHash: string, groups: seq<string>, shell: Option<string>)

  /** Every single quote closed, escaped and opened again. */
  function Escaped(key: string): string {
    if key == "" then ""
    else (if key[0] == '\'' then "'\\''" else [key[0]]) + Escaped(key[1..])
  }

  const USER := "KUMA_USER"
  const SHELL := "KUMA_SHELL"
  const GROUPS := "KUMA_GROUPS"
  const HASH := "KUMA_PASSWORD_HASH"
  const KEY := "KUMA_SSH_KEY"
  const BIN := "/usr/bin/"

  function Assign(name: string, quoted: string): string { name + ("='" + (quoted + "'\n")) }

  method WriteUserFile(account: Account, key: Option<string>) returns (out: string)
    ensures out == FileText(Written(account, key))
  {
    out := Assign(USER, account.name);
    ghost var done := [(USER, account.name)];
    FileTextOne(USER, account.name);
    if account.shell.Some? {
      out := out + Assign(SHELL, BIN + account.shell.value);
      FileTextSnoc(done, SHELL, BIN + account.shell.value);
      done := done + [(SHELL, BIN + account.shell.value)];
    }
    if account.groups != [] {
      out := out + Assign(GROUPS, Joined(account.groups, ' '));
      FileTextSnoc(done, GROUPS, Joined(account.groups, ' '));
      done := done + [(GROUPS, Joined(account.groups, ' '))];
    }
    out := out + Assign(HASH, account.passwordHash);
    FileTextSnoc(done, HASH, account.passwordHash);
    done := done + [(HASH, account.passwordHash)];
    if key.Some? {
      out := out + Assign(KEY, Escaped(Trim(key.value)));
      FileTextSnoc(done, KEY, Escaped(Trim(key.value)));
      done := done + [(KEY, Escaped(Trim(key.value)))];
    }
    assert done == Written(account, key);
  }

  function FileText(lines: seq<(string, string)>): string {
    if lines == [] then "" else Assign(lines[0].0, lines[0].1) + FileText(lines[1..])
  }

  lemma FileTextOne(name: string, quoted: string)
    ensures FileText([(name, quoted)]) == Assign(name, quoted)
  {
    assert [(name, quoted)][1..] == [];
  }

  lemma {:induction false} FileTextSnoc(lines: seq<(string, string)>, name: string, quoted: string)
    ensures FileText(lines + [(name, quoted)]) == FileText(lines) + Assign(name, quoted)
  {
    if lines == [] {
      FileTextOne(name, quoted);
      assert lines + [(name, quoted)] == [(name, quoted)];
    } else {
      assert (lines + [(name, quoted)])[1..] == lines[1..] + [(name, quoted)];
      FileTextSnoc(lines[1..], name, quoted);
      SeqAssociative(Assign(lines[0].0, lines[0].1), FileText(lines[1..]), Assign(name, quoted));
    }
  }

  /** What stands between the quotes of each line; the key comes last. */
  function Written(account: Account, key: Option<string>): seq<(string, string)> {
    Fields(account) + (if key.Some? then [(KEY, Escaped(Trim(key.value)))] else [])
  }

  /** What each line is meant to say. */
  function Intended(account: Account, key: Option<string>): seq<(string, string)> {
    Fields(account) + (if key.Some? then [(KEY, Trim(key.value))] else [])
  }

  function Fields(account: Account): seq<(string, string)> {
    [(USER, account.name)]
    + (if account.shell.Some? then [(SHELL, BIN + account.shell.value)] else [])
    + (if account.groups != [] then [(GROUPS, Joined(account.groups, ' '))] else [])
    + [(HASH, account.passwordHash)]
  }

  // ----- the reader -----

  predicate PlainChar(c: char) { IsAlnum(c) || c in "_-./:,+=@%" }

  /** The word at the start of `s` and what follows its line; `None` where the
      text leaves the quoting rules modelled here. */
  function ReadWord(s: string, quoted: bool): Option<(string, string)> {
    if quoted then
      if s == "" then None
      else if s[0] == '\'' then ReadWord(s[1..], false)
      else Prepend(s[0], ReadWord(s[1..], true))
    else if s == "" then Some(("", ""))
    else if s[0] == '\n' then Some(("", s[1..]))
    else if s[0] == '\'' then ReadWord(s[1..], true)
    else if s[0] == '\\' then
      if |s| == 1 then None
      else if s[1] == '\n' then ReadWord(s[2..], false)
      else Prepend(s[1], ReadWord(s[2..], false))
    else if PlainChar(s[0]) then Prepend(s[0], ReadWord(s[1..], false))
    else None
  }

  function Prepend(c: char, r: Option<(string, string)>): Option<(string, string)> {
    match r
    case Some((value, rest)) => Some(([c] + value, rest))
    case None => None
  }

  predicate IsName(s: string) { s != "" && !IsDigit(s[0]) && forall c <- s :: IsAlnum(c) || c == '_' }

  /** One assignment a line, in the order they take effect. */
  function ReadFile(s: string): Option<seq<(string, string)>>
    decreases |s|
  {
    if s == "" then Some([])
    else
      var eq := IndexOf(s, '=');
      if eq == |s| || !IsName(s[..eq]) then None
      else
        match ReadWord(s[eq + 1..], false)
        case None => None
        case Some((value, rest)) =>
          ReadWordShortens(s[eq + 1..], false);
          match ReadFile(rest)
          case None => None
          case Some(more) => Some([(s[..eq], value)] + more)
  }

  lemma {:induction false} ReadWordShortens(s: string, quoted: bool)
    ensures ReadWord(s, quoted).Some? ==> |ReadWord(s, quoted).value.1| <= |s|
    decreases |s|
  {
    if s != "" {
      ReadWordShortens(s[1..], true);
      ReadWordShortens(s[1..], false);
      if |s| > 1 {
        ReadWordShortens(s[2..], false);
      }
    }
  }

  // ----- what the shell makes of the file -----

  lemma QuoteReads(more: string)
    ensures ReadWord("'\\''" + more, true) == Prepend('\'', ReadWord(more, true))
  {
    var s, closed, reopened := "'\\''" + more, "\\''" + more, "'" + more;
    assert s[0] == '\'' && s[1..] == closed;
    assert closed[0] == '\\' && closed[1] == '\'' && closed[2..] == reopened;
    assert reopened[1..] == more;
    assert ReadWord(reopened, false) == ReadWord(more, true);
    assert ReadWord(closed, false) == Prepend('\'', ReadWord(reopened, false));
  }

  /** The escape puts any text whatever through the shell. */
  lemma {:induction false} EscapedReads(key: string, rest: string)
    ensures ReadWord(Escaped(key) + ("'\n" + rest), true) == Some((key, rest))
  {
    var end := "'\n" + rest;
    if key == "" {
      assert Escaped(key) + end == end;
      assert end[1..] == "\n" + rest && ("\n" + rest)[1..] == rest;
    } else {
      EscapedReads(key[1..], rest);
      CharReads(key[0], key[1..], end);
      assert [key[0]] + key[1..] == key;
    }
  }

  lemma CharReads(c: char, key: string, end: string)
    ensures ReadWord(Escaped([c] + key) + end, true) == Prepend(c, ReadWord(Escaped(key) + end, true))
  {
    var more := Escaped(key) + end;
    assert ([c] + key)[1..] == key;
    if c == '\'' {
      SeqAssociative("'\\''", Escaped(key), end);
      QuoteReads(more);
    } else {
      SeqAssociative([c], Escaped(key), end);
      assert ([c] + more)[1..] == more;
    }
  }

  lemma {:induction false} EscapedOfQuoteFree(text: string)
    ensures Escaped(text) == text <==> '\'' !in text
    ensures |Escaped(text)| >= |text|
    ensures |Escaped(text)| == |text| <==> '\'' !in text
  {
    if text != "" {
      EscapedOfQuoteFree(text[1..]);
    }
  }

  /** The characters a word costs beyond its value. */
  lemma {:induction false} WordCosts(s: string, quoted: bool)
    requires ReadWord(s, quoted).Some?
    ensures var (value, rest) := ReadWord(s, quoted).value;
      |value| + |rest| + (if '\'' in value then 1 else 0) + (if quoted then 1 else 0)
      + (if s != "" && s[|s| - 1] == '\n' then 1 else 0) <= |s|
    decreases |s|
  {
    if s != "" {
      if s[0] == '\'' {
        WordCosts(s[1..], !quoted);
      } else if quoted {
        WordCosts(s[1..], true);
      } else if s[0] == '\\' {
        WordCosts(s[2..], false);
      } else if s[0] != '\n' {
        WordCosts(s[1..], false);
      }
    }
  }

  /** A field put between quotes as it is comes through exactly when it holds
      no quote itself. */
  lemma BareFieldReads(field: string, rest: string)
    requires rest == "" || rest[|rest| - 1] == '\n'
    ensures ReadWord("'" + (field + ("'\n" + rest)), false) == Some((field, rest)) <==> '\'' !in field
  {
    var s := "'" + (field + ("'\n" + rest));
    assert s[1..] == field + ("'\n" + rest);
    if '\'' !in field {
      EscapedOfQuoteFree(field);
      EscapedReads(field, rest);
    } else if ReadWord(s, false) == Some((field, rest)) {
      assert s[|s| - 1] == '\n';
      WordCosts(s[1..], true);
    }
  }

  lemma LineReads(name: string, word: string, value: string, rest: string)
    requires IsName(name) && ReadWord(word, false) == Some((value, rest)) && ReadFile(rest).Some?
    ensures ReadFile(name + "=" + word) == Some([(name, value)] + ReadFile(rest).value)
  {
    var s := name + "=" + word;
    assert '=' !in name;
    assert s[..|name|] == name && s[|name| + 1..] == word;
    IndexOfIs(s, '=', |name|);
  }

  lemma EscapedLineReads(name: string, value: string, rest: string)
    requires IsName(name) && ReadFile(rest).Some?
    ensures ReadFile(Assign(name, Escaped(value)) + rest) == Some([(name, value)] + ReadFile(rest).value)
  {
    var inner := Escaped(value) + ("'\n" + rest);
    var word := "'" + inner;
    assert word[1..] == inner;
    EscapedReads(value, rest);
    LineReads(name, word, value, rest);
    LineShape(name, Escaped(value), rest);
  }

  lemma LineShape(name: string, quoted: string, rest: string)
    ensures Assign(name, quoted) + rest == name + "=" + ("'" + (quoted + ("'\n" + rest)))
  {}

  function EscapeAll(lines: seq<(string, string)>): seq<(string, string)> {
    if lines == [] then [] else [(lines[0].0, Escaped(lines[0].1))] + EscapeAll(lines[1..])
  }

  lemma {:induction false} FileReads(lines: seq<(string, string)>)
    requires forall l <- lines :: IsName(l.0)
    ensures ReadFile(FileText(EscapeAll(lines))) == Some(lines)
  {
    if lines != [] {
      FileReads(lines[1..]);
      assert EscapeAll(lines)[1..] == EscapeAll(lines[1..]);
      assert IsName(lines[0].0) by { assert lines[0] in lines; }
      EscapedLineReads(lines[0].0, lines[0].1, FileText(EscapeAll(lines[1..])));
      assert [(lines[0].0, lines[0].1)] + lines[1..] == lines;
    }
  }

  predicate QuoteFree(account: Account) { forall f <- Fields(account) :: '\'' !in f.1 }

  lemma {:induction false} EscapeAllQuoteFree(lines: seq<(string, string)>)
    requires forall l <- lines :: '\'' !in l.1
    ensures EscapeAll(lines) == lines
  {
    if lines != [] {
      assert lines[0] in lines;
      EscapedOfQuoteFree(lines[0].1);
      EscapeAllQuoteFree(lines[1..]);
    }
  }

  lemma {:induction false} EscapeAllAppend(a: seq<(string, string)>, b: seq<(string, string)>)
    ensures EscapeAll(a + b) == EscapeAll(a) + EscapeAll(b)
  {
    if a == [] {
      assert a + b == b;
    } else {
      assert (a + b)[1..] == a[1..] + b;
      EscapeAllAppend(a[1..], b);
    }
  }

  lemma NamesAreNames()
    ensures IsName(USER) && IsName(SHELL) && IsName(GROUPS) && IsName(HASH) && IsName(KEY)
  {}

  /** What a variable is set to in the end. */
  function Setting(vars: seq<(string, string)>, name: string): Option<string> {
    if vars == [] then None
    else
      var n := |vars| - 1;
      if vars[n].0 == name then Some(vars[n].1) else Setting(vars[..n], name)
  }

  lemma SettingSnoc(vars: seq<(string, string)>, name: string, value: string, other: string)
    ensures Setting(vars + [(name, value)], other) == if name == other then Some(value) else Setting(vars, other)
  {
    assert (vars + [(name, value)])[..|vars|] == vars;
  }

  /** The variables the account's fields set. */
  lemma FieldsSet(account: Account, name: string)
    ensures Setting(Fields(account), name) ==
      if name == "KUMA_USER" then Some(account.name)
      else if name == "KUMA_SHELL" && account.shell.Some? then Some("/usr/bin/" + account.shell.value)
      else if name == "KUMA_GROUPS" && account.groups != [] then Some(Joined(account.groups, ' '))
      else if name == "KUMA_PASSWORD_HASH" then Some(account.passwordHash)
      else None
  {
    var none: seq<(string, string)> := [];
    var user := none + [(USER, account.name)];
    var shell := if account.shell.Some? then user + [(SHELL, BIN + account.shell.value)] else user;
    var groups := if account.groups != [] then shell + [(GROUPS, Joined(account.groups, ' '))] else shell;
    assert Fields(account) == groups + [(HASH, account.passwordHash)];
    SettingSnoc(none, USER, account.name, name);
    if account.shell.Some? {
      SettingSnoc(user, SHELL, BIN + account.shell.value, name);
    }
    SettingSnoc(shell, GROUPS, Joined(account.groups, ' '), name);
    SettingSnoc(groups, HASH, account.passwordHash, name);
  }

  /** Whatever the key says, quotes and line breaks and all, the shell sets each
      variable to what the account says: the user, the shell under /usr/bin and
      the groups if there are any, the hash, and the key to its trimmed self. */
  lemma TheShellReadsTheAccount(account: Account, key: Option<string>, name: string)
    requires QuoteFree(account)
    ensures ReadFile(FileText(Written(account, key))).Some?
    ensures Setting(ReadFile(FileText(Written(account, key))).value, name) ==
      if name == "KUMA_USER" then Some(account.name)
      else if name == "KUMA_SHELL" && account.shell.Some? then Some("/usr/bin/" + account.shell.value)
      else if name == "KUMA_GROUPS" && account.groups != [] then Some(Joined(account.groups, ' '))
      else if name == "KUMA_PASSWORD_HASH" then Some(account.passwordHash)
      else if name == "KUMA_SSH_KEY" && key.Some? then Some(Trim(key.value))
      else None
  {
    IntendedIsRead(account, key);
    FieldsSet(account, name);
    if key.Some? {
      SettingSnoc(Fields(account), KEY, Trim(key.value), name);
    } else {
      assert Intended(account, key) == Fields(account);
    }
  }

  lemma IntendedIsRead(account: Account, key: Option<string>)
    requires QuoteFree(account)
    ensures ReadFile(FileText(Written(account, key))) == Some(Intended(account, key))
  {
    NamesAreNames();
    EscapeAllQuoteFree(Fields(account));
    var last := if key.Some? then [(KEY, Trim(key.value))] else [];
    EscapeAllAppend(Fields(account), last);
    assert EscapeAll(last) == if key.Some? then [(KEY, Escaped(Trim(key.value)))] else [];
    FileReads(Intended(account, key));
  }
}
