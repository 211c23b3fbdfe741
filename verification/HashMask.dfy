/** crypt(5) hashes masked out of text that is about to be repeated
    (`mask_hashes` in `src/inspect.rs`). */
module HashMask {
  import opened Text

  const REDACTED := "<redacted>"

  // ----- what a hash is -----

  /** How many letters and digits a text starts with. */
  function AlnumRun(s: string): (n: nat)
    ensures n <= |s| && (n < |s| ==> !IsAlnum(s[n]))
    ensures forall i | 0 <= i < n :: IsAlnum(s[i])
  {
    if s == "" || !IsAlnum(s[0]) then 0 else 1 + AlnumRun(s[1..])
  }

  /** A dollar sign, letters or digits, and another dollar sign. */
  predicate Opens(s: string) {
    s != "" && s[0] == '$' &&
    var n := AlnumRun(s[1..]);
    0 < n && n + 1 < |s| && s[n + 1] == '$'
  }

  predicate OpensAt(s: string, j: int) { 0 <= j < |s| && Opens(s[j..]) }

  /** A character belongs to a hash when one opens there, or when the character
      before belongs to one and this is no white space. */
  predicate InHash(s: string, i: int)
    decreases i
  {
    0 <= i < |s| && (OpensAt(s, i) || (i > 0 && InHash(s, i - 1) && !IsSpace(s[i])))
  }

  /** What the masked text holds at each place: the character itself outside
      hashes, one mask where a hash begins, nothing further inside it. */
  function Piece(s: string, i: int): string
    requires 0 <= i < |s|
  {
    if !InHash(s, i) then [s[i]]
    else if i > 0 && InHash(s, i - 1) then ""
    else REDACTED
  }

  /** The text from place `i` on, masked place by place. */
  function Masked(s: string, i: nat): string
    requires i <= |s|
    decreases |s| - i
  {
    if i == |s| then "" else Piece(s, i) + Masked(s, i + 1)
  }

  /** The position of the first white space, or the length of the text. */
  function FirstSpace(s: string): (n: nat)
    ensures n <= |s| && SpaceFree(s[..n]) && (n < |s| ==> IsSpace(s[n]))
  {
    if s == "" || IsSpace(s[0]) then 0
    else
      var n := FirstSpace(s[1..]);
      assert s[..n + 1] == [s[0]] + s[1..][..n];
      n + 1
  }

  // ----- the scan -----

  /** The scan, from one dollar sign to the next. */
  function Scanned(rest: string): string
    decreases |rest|, 1
  {
    if '$' !in rest then rest
    else
      var at := IndexOf(rest, '$');
      rest[..at] + FromDollar(rest[at..])
  }

  /** A hash runs to the next white space. */
  function FromDollar(from: string): string
    requires from != "" && from[0] == '$'
    decreases |from|, 0
  {
    if Opens(from) then REDACTED + Scanned(from[FirstSpace(from)..]) else "$" + Scanned(from[1..])
  }

  method RunMaskHashes(text: string) returns (out: string)
    ensures out == Masked(text, 0)
  {
    out := "";
    var rest := text;
    while '$' in rest
      invariant out + Scanned(rest) == Scanned(text)
      decreases |rest|
    {
      var at := IndexOf(rest, '$');
      var before, from := rest[..at], rest[at..];
      SeqAssociative(out, before, FromDollar(from));
      out := out + before;
      var n := AlnumRun(from[1..]);
      var opens := n > 0 && n + 1 < |from| && from[n + 1] == '$';
      if !opens {
        SeqAssociative(out, "$", Scanned(from[1..]));
        out := out + "$";
        rest := from[1..];
        continue;
      }
      SeqAssociative(out, REDACTED, Scanned(from[FirstSpace(from)..]));
      out := out + REDACTED;
      rest := from[FirstSpace(from)..];
    }
    out := out + rest;
    assert text[0..] == text;
    MaskedIsSwept(text, 0);
    ScanIsSwept(text, false);
  }

  /** The place-by-place mask as one sweep that remembers only whether the
      character before was in a hash. */
  function Swept(rest: string, inside: bool): string {
    if rest == "" then ""
    else if Opens(rest) || (inside && !IsSpace(rest[0])) then
      (if inside then "" else REDACTED) + Swept(rest[1..], true)
    else [rest[0]] + Swept(rest[1..], false)
  }

  lemma {:induction false} MaskedIsSwept(s: string, i: nat)
    requires i <= |s|
    ensures Masked(s, i) == Swept(s[i..], i > 0 && InHash(s, i - 1))
    decreases |s| - i
  {
    if i < |s| {
      MaskedIsSwept(s, i + 1);
      assert s[i..][1..] == s[i + 1..];
    }
  }

  /** Where the scan may stand: after a character in no hash, at an end, or at
      white space. */
  predicate Ready(rest: string, inside: bool) { inside ==> rest == "" || IsSpace(rest[0]) }

  lemma {:induction false} SweepPlain(before: string, rest: string, inside: bool)
    requires '$' !in before && Ready(before + rest, inside)
    ensures Swept(before + rest, inside) == before + Swept(rest, inside && before == "")
  {
    if before == "" {
      assert before + rest == rest;
    } else {
      assert (before + rest)[1..] == before[1..] + rest;
      SweepPlain(before[1..], rest, false);
      SeqAssociative([before[0]], before[1..], Swept(rest, false));
      assert [before[0]] + before[1..] == before;
    }
  }

  lemma {:induction false} SweepInside(rest: string)
    ensures Swept(rest, true) == Swept(rest[FirstSpace(rest)..], true)
    ensures Ready(rest[FirstSpace(rest)..], true)
  {
    if rest != "" && !IsSpace(rest[0]) {
      SweepInside(rest[1..]);
      assert rest[FirstSpace(rest)..] == rest[1..][FirstSpace(rest[1..])..];
      assert "" + Swept(rest[1..], true) == Swept(rest[1..], true);
    } else {
      assert rest[0..] == rest;
    }
  }

  lemma SweepHash(from: string)
    requires Opens(from)
    ensures Swept(from, false) == REDACTED + Swept(from[FirstSpace(from)..], true)
    ensures Ready(from[FirstSpace(from)..], true)
  {
    SweepInside(from[1..]);
    assert from[FirstSpace(from)..] == from[1..][FirstSpace(from[1..])..];
  }

  /** The scan computes the sweep, so it computes the place-by-place mask. */
  lemma {:induction false} ScanIsSwept(rest: string, inside: bool)
    requires Ready(rest, inside)
    ensures Scanned(rest) == Swept(rest, inside)
    decreases |rest|, 1
  {
    if '$' !in rest {
      SweepPlain(rest, "", inside);
      assert rest + "" == rest;
    } else {
      var at := IndexOf(rest, '$');
      assert rest[..at] + rest[at..] == rest;
      SweepPlain(rest[..at], rest[at..], inside);
      FromDollarIsSwept(rest[at..]);
    }
  }

  lemma {:induction false} FromDollarIsSwept(from: string)
    requires from != "" && from[0] == '$'
    ensures FromDollar(from) == Swept(from, false)
    decreases |from|, 0
  {
    if Opens(from) {
      SweepHash(from);
      ScanIsSwept(from[FirstSpace(from)..], true);
    } else {
      ScanIsSwept(from[1..], false);
    }
  }

  // ----- complete, minimal, and stable -----

  predicate NoSpaceIn(s: string, j: int, i: int) {
    0 <= j <= i < |s| && forall k | j <= k <= i :: !IsSpace(s[k])
  }

  lemma {:induction false} InHashHasOpening(s: string, i: nat) returns (j: nat)
    requires InHash(s, i)
    ensures OpensAt(s, j) && NoSpaceIn(s, j, i)
  {
    if OpensAt(s, i) {
      j := i;
    } else {
      j := InHashHasOpening(s, i - 1);
    }
  }

  lemma {:induction false} OpeningReaches(s: string, j: nat, i: nat)
    requires OpensAt(s, j) && NoSpaceIn(s, j, i)
    ensures InHash(s, i)
    decreases i
  {
    if j < i {
      OpeningReaches(s, j, i - 1);
    }
  }

  /** The shape of an opening: dollar signs at `j` and `k`, and between them one
      or more ASCII letters and digits and nothing else. */
  predicate IsOpening(s: string, j: int, k: int) {
    && 0 <= j && j + 1 < k < |s| && s[j] == '$' && s[k] == '$'
    && forall m | j < m < k :: '0' <= s[m] <= '9' || 'a' <= s[m] <= 'z' || 'A' <= s[m] <= 'Z'
  }

  lemma OpensAtMeans(s: string, j: int)
    ensures OpensAt(s, j) <==> exists k :: IsOpening(s, j, k)
  {
    if 0 <= j < |s| {
      var from := s[j..];
      var n := AlnumRun(from[1..]);
      forall m | j < m < j + n + 1 ensures IsAlnum(s[m]) {
        assert from[1..][m - j - 1] == s[m];
      }
      if OpensAt(s, j) {
        assert IsOpening(s, j, j + n + 1);
      }
      if k :| IsOpening(s, j, k) {
        OpeningRun(s, j, k);
      }
    }
  }

  lemma OpeningRun(s: string, j: nat, k: nat)
    requires IsOpening(s, j, k)
    ensures AlnumRun(s[j..][1..]) == k - j - 1
  {
    var rest := s[j..][1..];
    var n := AlnumRun(rest);
    assert forall m | 0 <= m < k - j - 1 :: rest[m] == s[j + 1 + m] && IsAlnum(rest[m]);
    assert rest[k - j - 1] == '$';
  }

  /** The place-by-place rule in one sentence: some opening begins at or before
      the character with no white space since. */
  lemma InHashMeans(s: string, i: nat)
    requires i < |s|
    ensures InHash(s, i) <==> exists j, k :: IsOpening(s, j, k) && NoSpaceIn(s, j, i)
  {
    if InHash(s, i) {
      var j := InHashHasOpening(s, i);
      OpensAtMeans(s, j);
    }
    if j, k :| IsOpening(s, j, k) && NoSpaceIn(s, j, i) {
      OpensAtMeans(s, j);
      OpeningReaches(s, j, i);
    }
  }

  /** Letters or digits, then a dollar sign: what turns one into an opening. */
  predicate CanClose(s: string) { AlnumRun(s) < |s| && s[AlnumRun(s)] == '$' }

  lemma RunCons(c: char, s: string)
    ensures AlnumRun([c] + s) == if IsAlnum(c) then 1 + AlnumRun(s) else 0
    ensures CanClose([c] + s) <==> if IsAlnum(c) then CanClose(s) else c == '$'
  {
    assert ([c] + s)[1..] == s;
  }

  predicate NoWorse(masked: string, s: string) {
    (CanClose(masked) ==> CanClose(s)) && (AlnumRun(masked) > 0 ==> AlnumRun(s) > 0)
  }

  lemma NoWorseCons(c: char, masked: string, s: string)
    requires NoWorse(masked, s)
    ensures NoWorse([c] + masked, [c] + s)
  {
    RunCons(c, masked);
    RunCons(c, s);
  }

  lemma NoWorseMask(more: string, s: string)
    ensures NoWorse(REDACTED + more, s)
  {
    assert REDACTED + more == ['<'] + ("redacted>" + more);
    RunCons('<', "redacted>" + more);
  }

  /** Masking from a place outside every hash completes no opening. */
  lemma {:induction false} MaskedCloses(s: string, p: nat)
    requires p <= |s| && (p == 0 || !InHash(s, p - 1))
    ensures NoWorse(Masked(s, p), s[p..])
    decreases |s| - p
  {
    if p < |s| {
      if InHash(s, p) {
        NoWorseMask(Masked(s, p + 1), s[p..]);
      } else {
        MaskedCloses(s, p + 1);
        NoWorseCons(s[p], Masked(s, p + 1), s[p + 1..]);
        assert s[p..] == [s[p]] + s[p + 1..];
      }
    }
  }

  lemma OpensCons(c: char, s: string)
    ensures Opens([c] + s) <==> c == '$' && AlnumRun(s) > 0 && CanClose(s)
  {
    assert ([c] + s)[1..] == s;
  }

  lemma OpensLater(a: string, s: string)
    requires '$' !in a && forall j :: !OpensAt(s, j)
    ensures forall j :: !OpensAt(a + s, j)
  {
    forall j ensures !OpensAt(a + s, j) {
      if 0 <= j < |a| {
        assert (a + s)[j..][0] == a[j];
      } else if |a| <= j < |a + s| {
        assert (a + s)[j..] == s[j - |a|..];
        assert !OpensAt(s, j - |a|);
      }
    }
  }

  lemma ClosedCons(c: char, s: string)
    requires !Opens([c] + s) && forall j :: !OpensAt(s, j)
    ensures forall j :: !OpensAt([c] + s, j)
  {
    forall j ensures !OpensAt([c] + s, j) {
      if j == 0 {
        assert ([c] + s)[0..] == [c] + s;
      } else if 0 < j < |s| + 1 {
        assert ([c] + s)[j..] == s[j - 1..];
        assert !OpensAt(s, j - 1);
      }
    }
  }

  lemma DollarStaysClosed(s: string, i: nat, rest: string)
    requires i < |s| && s[i] == '$' && !InHash(s, i) && NoWorse(rest, s[i + 1..])
    ensures !Opens(['$'] + rest)
  {
    NotInHashNotOpen(s, i);
    assert s[i..] == ['$'] + s[i + 1..];
    OpensCons('$', s[i + 1..]);
    OpensCons('$', rest);
  }

  lemma NotInHashNotOpen(s: string, i: nat)
    requires i < |s| && s[i] == '$' && !InHash(s, i)
    ensures !OpensAt(s, i)
  {
  }

  lemma PieceHoldsNoDollar(s: string, i: nat)
    requires i < |s| && (InHash(s, i) || s[i] != '$')
    ensures '$' !in Piece(s, i)
  {}

  lemma DollarStep(s: string, i: nat, rest: string)
    requires i < |s| && s[i] == '$' && !InHash(s, i) && rest == Masked(s, i + 1) && forall j :: !OpensAt(rest, j)
    ensures forall j :: !OpensAt(['$'] + rest, j)
  {
    MaskedCloses(s, i + 1);
    DollarStaysClosed(s, i, rest);
    ClosedCons('$', rest);
  }

  /** No opening is left in the masked text. */
  lemma {:induction false} MaskedHoldsNoHash(s: string, i: nat)
    requires i <= |s|
    ensures forall j :: !OpensAt(Masked(s, i), j)
    decreases |s| - i
  {
    if i < |s| {
      var rest := Masked(s, i + 1);
      MaskedHoldsNoHash(s, i + 1);
      if !InHash(s, i) && s[i] == '$' {
        DollarStep(s, i, rest);
      } else {
        PieceHoldsNoDollar(s, i);
        OpensLater(Piece(s, i), rest);
      }
    }
  }

  /** The mask is complete: nothing in the output has the shape of a hash. It
      is also minimal and stable: a text is left alone exactly when it holds no
      hash, so masking twice is masking once. */
  lemma MaskingSettles(s: string)
    ensures forall j, k :: !IsOpening(Masked(s, 0), j, k)
    ensures Masked(s, 0) == s <==> forall j, k :: !IsOpening(s, j, k)
    ensures Masked(Masked(s, 0), 0) == Masked(s, 0)
  {
    MaskedHoldsNoHash(s, 0);
    NoOpeningMeans(s);
    NoOpeningMeans(Masked(s, 0));
    NoHashNoMask(s);
    NoHashNoMask(Masked(s, 0));
  }

  lemma NoOpeningMeans(s: string)
    ensures (forall j :: !OpensAt(s, j)) <==> forall j, k :: !IsOpening(s, j, k)
  {
    forall j, k | IsOpening(s, j, k) ensures OpensAt(s, j) {
      OpensAtMeans(s, j);
    }
    forall j | OpensAt(s, j) ensures exists k :: IsOpening(s, j, k) {
      OpensAtMeans(s, j);
    }
  }

  lemma NoHashNoMask(s: string)
    ensures (forall j :: !OpensAt(s, j)) ==> Masked(s, 0) == s
  {
    if forall j :: !OpensAt(s, j) {
      NothingMasked(s, 0);
      assert s[0..] == s;
    }
  }

  lemma {:induction false} NothingMasked(s: string, i: nat)
    requires i <= |s| && forall j :: !OpensAt(s, j)
    ensures Masked(s, i) == s[i..]
    ensures i > 0 ==> !InHash(s, i - 1)
    decreases |s| - i
  {
    InHashMeansNothing(s, i);
    if i < |s| {
      NothingMasked(s, i + 1);
      assert s[i..] == [s[i]] + s[i + 1..];
    }
  }

  lemma {:induction false} InHashMeansNothing(s: string, i: nat)
    requires i <= |s| && forall j :: !OpensAt(s, j)
    ensures i > 0 ==> !InHash(s, i - 1)
  {
    if i > 1 {
      InHashMeansNothing(s, i - 1);
    }
  }

  /** The characters outside hashes, in order. */
  function Unhashed(s: string, i: nat): string
    requires i <= |s|
    decreases |s| - i
  {
    if i == |s| then "" else (if InHash(s, i) then "" else [s[i]]) + Unhashed(s, i + 1)
  }

  /** The masked text cut into kept stretches, one mask between neighbours. */
  function Stretches(s: string, i: nat): (r: seq<string>)
    requires i <= |s|
    ensures r != []
    decreases |s| - i
  {
    if i == |s| then [""]
    else
      var rest := Stretches(s, i + 1);
      if !InHash(s, i) then [[s[i]] + rest[0]] + rest[1..]
      else if i > 0 && InHash(s, i - 1) then rest
      else [""] + rest
  }

  function WithMasks(stretches: seq<string>): string
    requires stretches != []
  {
    if |stretches| == 1 then stretches[0] else stretches[0] + (REDACTED + WithMasks(stretches[1..]))
  }

  function Glued(stretches: seq<string>): string {
    if stretches == [] then "" else stretches[0] + Glued(stretches[1..])
  }

  /** Taking the masks out again leaves exactly the characters outside hashes,
      in order. */
  lemma {:induction false} MaskTakesOnlyHashes(s: string, i: nat)
    requires i <= |s|
    ensures Masked(s, i) == WithMasks(Stretches(s, i))
    ensures Glued(Stretches(s, i)) == Unhashed(s, i)
    decreases |s| - i
  {
    if i == |s| {
      assert [""][1..] == [];
    } else {
      var rest := Stretches(s, i + 1);
      MaskTakesOnlyHashes(s, i + 1);
      if !InHash(s, i) {
        var r := [[s[i]] + rest[0]] + rest[1..];
        assert r[1..] == rest[1..];
        SeqAssociative([s[i]], rest[0], Glued(rest[1..]));
        if |rest| > 1 {
          SeqAssociative([s[i]], rest[0], REDACTED + WithMasks(rest[1..]));
        }
      } else if !(i > 0 && InHash(s, i - 1)) {
        assert ([""] + rest)[1..] == rest;
        assert "" + (REDACTED + WithMasks(rest)) == REDACTED + WithMasks(rest);
      }
    }
  }
}
