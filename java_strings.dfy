/** The two java.lang.String operations the parser applies to request text:
    trim(), on the user query, and split("\\s+"), on the payload field list. */
module JavaStrings {

  /** trim() removes every leading and trailing char at or below U+0020. */
  predicate IsTrimmed(c: char)
  {
    c <= ' '
  }

  /** The number of leading chars at or below U+0020: where trim() starts. */
  function LeadingTrimmed(s: string): (n: nat)
    ensures n <= |s|
    ensures forall i :: 0 <= i < n ==> IsTrimmed(s[i])
    ensures n < |s| ==> !IsTrimmed(s[n])
  {
    if |s| > 0 && IsTrimmed(s[0]) then
      var n := 1 + LeadingTrimmed(s[1..]);
      assert forall i :: 1 <= i < n ==> s[i] == s[1..][i - 1];
      n
    else 0
  }

  /** Where trim() ends: the end index hi moved down past every char at or
      below U+0020, but not below lo. */
  function TrimmedEnd(s: string, lo: nat, hi: nat): (e: nat)
    requires lo <= hi <= |s|
    ensures lo <= e <= hi
    ensures forall i :: e <= i < hi ==> IsTrimmed(s[i])
    ensures e > lo ==> !IsTrimmed(s[e - 1])
    decreases hi
  {
    if hi > lo && IsTrimmed(s[hi - 1]) then TrimmedEnd(s, lo, hi - 1) else hi
  }

  /** String.trim(): the slice of s left once the leading and the trailing
      chars at or below U+0020 are removed; it starts and ends above U+0020. */
  function Trim(s: string): (r: string)
    ensures var i := LeadingTrimmed(s);
      i + |r| <= |s| && r == s[i..i + |r|] && forall k :: i + |r| <= k < |s| ==> IsTrimmed(s[k])
    ensures r == [] || (!IsTrimmed(r[0]) && !IsTrimmed(r[|r| - 1]))
  {
    var st := LeadingTrimmed(s);
    s[st..TrimmedEnd(s, st, |s|)]
  }

  /** `s.trim().length() == 0` holds exactly when no char of s is above U+0020,
      so a query of spaces, tabs, newlines or other control chars is blank. */
  lemma TrimIsEmptyIffBlank(s: string)
    ensures |Trim(s)| == 0 <==> forall i :: 0 <= i < |s| ==> IsTrimmed(s[i])
  {
  }

  /** A char of the regular-expression class \s, that is [ \t\n\x0B\f\r]. */
  predicate IsRegexSpace(c: char)
  {
    c == ' ' || c == '\t' || c == '\n' || c as int == 0x0B || c as int == 0x0C || c == '\r'
  }

  predicate SpaceFree(s: string)
  {
    forall i :: 0 <= i < |s| ==> !IsRegexSpace(s[i])
  }

  /** Length of the longest prefix of s without a \s char. */
  function SpaceFreePrefix(s: string): (n: nat)
    ensures n <= |s| && SpaceFree(s[..n])
    ensures n < |s| ==> IsRegexSpace(s[n])
  {
    if |s| == 0 || IsRegexSpace(s[0]) then 0 else 1 + SpaceFreePrefix(s[1..])
  }

  /** Length of the run of \s chars s starts with. */
  function SpaceRun(s: string): (n: nat)
    ensures n <= |s| && forall i :: 0 <= i < n ==> IsRegexSpace(s[i])
    ensures n < |s| ==> !IsRegexSpace(s[n])
  {
    if |s| > 0 && IsRegexSpace(s[0]) then 1 + SpaceRun(s[1..]) else 0
  }

  /** What Pattern.split collects before it drops trailing empty strings: the
      text before each maximal run of \s chars, then the text after the last. */
  function Pieces(s: string): (r: seq<string>)
    ensures |r| >= 1
    decreases |s|
  {
    var n := SpaceFreePrefix(s);
    if n == |s| then [s]
    else
      var rest := s[n..];
      [s[..n]] + Pieces(rest[SpaceRun(rest)..])
  }

  /** Removes the empty strings at the end of a list. */
  function DropTrailingEmpty(xs: seq<string>): (r: seq<string>)
    ensures |r| <= |xs| && r == xs[..|r|]
    ensures forall i :: |r| <= i < |xs| ==> xs[i] == ""
    ensures r == [] || r[|r| - 1] != ""
  {
    if |xs| > 0 && xs[|xs| - 1] == "" then DropTrailingEmpty(xs[..|xs| - 1]) else xs
  }

  /** `s.split("\\s+")`: when nothing matches, the one-element array [s];
      otherwise the pieces with the trailing empty strings removed. No element
      holds a \s char, only the first may be empty (it is, when s starts with
      \s or s is ""), and joined in order the elements are exactly the chars of
      s that are not \s. */
  function Split(s: string): (r: seq<string>)
    ensures forall k :: 0 <= k < |r| ==> SpaceFree(r[k])
    ensures forall k :: 0 < k < |r| ==> r[k] != ""
    ensures Concat(r) == NonSpace(s)
  {
    if SpaceFree(s) then
      NonSpaceOfSpaceFree(s);
      assert Concat([s]) == s + Concat([]);
      [s]
    else
      MatchedPiecesShape(s);
      PiecesKeepText(s);
      DropTrailingEmptyKeepsText(Pieces(s));
      DropTrailingEmpty(Pieces(s))
  }

  /** Splitting the empty string yields the one empty string. */
  lemma SplitEmpty()
    ensures Split("") == [""]
  {
  }

  /** Splitting a string made only of \s chars yields no string at all. */
  lemma {:induction false} SplitAllSpaces(s: string)
    requires |s| > 0 && forall i :: 0 <= i < |s| ==> IsRegexSpace(s[i])
    ensures Split(s) == []
  {
    assert !SpaceFree(s) by { assert IsRegexSpace(s[0]); }
    assert SpaceFreePrefix(s) == 0;
    assert SpaceRun(s) == |s|;
    assert Pieces(s) == [""] + Pieces("");
  }

  /** No piece holds a \s char. */
  lemma {:induction false} PiecesSpaceFree(s: string)
    ensures forall k :: 0 <= k < |Pieces(s)| ==> SpaceFree(Pieces(s)[k])
    decreases |s|
  {
    var n := SpaceFreePrefix(s);
    if n < |s| {
      var rest := s[n..];
      PiecesSpaceFree(rest[SpaceRun(rest)..]);
    }
  }

  /** A string that starts with something other than \s gives pieces of which
      only the last may be empty. */
  lemma {:induction false} PiecesInnerNonEmpty(s: string)
    requires s == [] || !IsRegexSpace(s[0])
    ensures forall k :: 0 <= k < |Pieces(s)| - 1 ==> Pieces(s)[k] != ""
    decreases |s|
  {
    var n := SpaceFreePrefix(s);
    if n < |s| {
      var rest := s[n..];
      var next := rest[SpaceRun(rest)..];
      PiecesInnerNonEmpty(next);
    }
  }

  /** When \s+ matches, no piece left after the trailing empty strings are
      dropped holds a \s char, and only the first may be empty. */
  lemma MatchedPiecesShape(s: string)
    requires !SpaceFree(s)
    ensures var r := DropTrailingEmpty(Pieces(s));
      (forall k :: 0 <= k < |r| ==> SpaceFree(r[k])) && (forall k :: 0 < k < |r| ==> r[k] != "")
  {
    PiecesSpaceFree(s);
    PiecesInnerNonEmptyAfterFirst(s);
    KeptPrefixShape(Pieces(s), DropTrailingEmpty(Pieces(s)));
  }

  /** Every piece but the first and the last is non-empty. */
  lemma PiecesInnerNonEmptyAfterFirst(s: string)
    ensures forall k :: 0 < k < |Pieces(s)| - 1 ==> Pieces(s)[k] != ""
  {
    var n := SpaceFreePrefix(s);
    if n < |s| {
      var rest := s[n..];
      var next := rest[SpaceRun(rest)..];
      PiecesInnerNonEmpty(next);
      ConsInnerNonEmpty(s[..n], Pieces(next));
    }
  }

  lemma ConsInnerNonEmpty(w: string, xs: seq<string>)
    requires forall k :: 0 <= k < |xs| - 1 ==> xs[k] != ""
    ensures forall k :: 0 < k < |xs| ==> ([w] + xs)[k] != ""
  {
    forall k | 0 < k < |xs|
      ensures ([w] + xs)[k] == xs[k - 1]
    {
    }
  }

  /** A prefix of a list that does not end with "" keeps the list's shape. */
  lemma KeptPrefixShape(ps: seq<string>, r: seq<string>)
    requires |r| <= |ps| && r == ps[..|r|] && (r == [] || r[|r| - 1] != "")
    requires forall k :: 0 <= k < |ps| ==> SpaceFree(ps[k])
    requires forall k :: 0 < k < |ps| - 1 ==> ps[k] != ""
    ensures forall k :: 0 <= k < |r| ==> SpaceFree(r[k])
    ensures forall k :: 0 < k < |r| ==> r[k] != ""
  {
    forall k | 0 <= k < |r|
      ensures r[k] == ps[k]
    {
    }
  }

  /** The chars of s that are not \s, in order. */
  function NonSpace(s: string): (r: string)
  {
    if s == [] then [] else (if IsRegexSpace(s[0]) then [] else [s[0]]) + NonSpace(s[1..])
  }

  /** Concatenation of a list of strings. */
  function Concat(xs: seq<string>): (r: string)
  {
    if xs == [] then [] else xs[0] + Concat(xs[1..])
  }

  lemma {:induction false} NonSpaceAppend(a: string, b: string)
    ensures NonSpace(a + b) == NonSpace(a) + NonSpace(b)
  {
    if a == [] {
      assert a + b == b;
    } else {
      assert (a + b)[0] == a[0];
      assert (a + b)[1..] == a[1..] + b;
      NonSpaceAppend(a[1..], b);
    }
  }

  lemma {:induction false} NonSpaceOfSpaceFree(s: string)
    requires SpaceFree(s)
    ensures NonSpace(s) == s
  {
    if s != [] {
      NonSpaceOfSpaceFree(s[1..]);
    }
  }

  lemma {:induction false} NonSpaceOfSpaces(s: string)
    requires forall i :: 0 <= i < |s| ==> IsRegexSpace(s[i])
    ensures NonSpace(s) == []
  {
    if s != [] {
      NonSpaceOfSpaces(s[1..]);
    }
  }

  lemma {:induction false} ConcatAppend(xs: seq<string>, ys: seq<string>)
    ensures Concat(xs + ys) == Concat(xs) + Concat(ys)
  {
    if xs == [] {
      assert xs + ys == ys;
    } else {
      assert (xs + ys)[0] == xs[0];
      assert (xs + ys)[1..] == xs[1..] + ys;
      ConcatAppend(xs[1..], ys);
    }
  }

  /** A word, a run of \s chars, then the rest: only the word and the rest's
      non-space chars remain. */
  lemma {:induction false} NonSpaceOfWordThenSpaces(word: string, spaces: string, next: string)
    requires SpaceFree(word)
    requires forall i :: 0 <= i < |spaces| ==> IsRegexSpace(spaces[i])
    ensures NonSpace(word + (spaces + next)) == word + NonSpace(next)
  {
    calc {
      NonSpace(word + (spaces + next));
      { NonSpaceAppend(word, spaces + next); }
      NonSpace(word) + NonSpace(spaces + next);
      { NonSpaceAppend(spaces, next); }
      NonSpace(word) + (NonSpace(spaces) + NonSpace(next));
      { NonSpaceOfSpaceFree(word); NonSpaceOfSpaces(spaces); }
      word + ([] + NonSpace(next));
    }
  }

  lemma {:induction false} PiecesKeepText(s: string)
    ensures Concat(Pieces(s)) == NonSpace(s)
    decreases |s|
  {
    var n := SpaceFreePrefix(s);
    if n == |s| {
      assert s[..n] == s;
      NonSpaceOfSpaceFree(s);
    } else {
      var rest := s[n..];
      var m := SpaceRun(rest);
      var next := rest[m..];
      var word, spaces := s[..n], rest[..m];
      assert s == word + (spaces + next);
      NonSpaceOfWordThenSpaces(word, spaces, next);
      assert Concat(Pieces(s)) == word + Concat(Pieces(next));
      PiecesKeepText(next);
    }
  }

  lemma {:induction false} DropTrailingEmptyKeepsText(xs: seq<string>)
    ensures Concat(DropTrailingEmpty(xs)) == Concat(xs)
    decreases |xs|
  {
    if |xs| > 0 && xs[|xs| - 1] == "" {
      var init := xs[..|xs| - 1];
      DropTrailingEmptyKeepsText(init);
      assert xs == init + [""];
      ConcatAppend(init, [""]);
    }
  }


  /** A list of strings that joins to nothing holds only empty strings. */
  lemma {:induction false} ConcatEmptyParts(xs: seq<string>)
    requires Concat(xs) == []
    ensures forall k :: 0 <= k < |xs| ==> xs[k] == []
  {
    if xs != [] {
      ConcatEmptyParts(xs[1..]);
      forall k | 0 < k < |xs|
        ensures xs[k] == []
      {
        assert xs[k] == xs[1..][k - 1];
      }
    }
  }

  /** An empty element appears in a split exactly when s is "" or s starts
      with \s and has some char that is not \s. */
  lemma SplitLeadingEmpty(s: string)
    ensures "" in Split(s) <==> s == [] || (IsRegexSpace(s[0]) && NonSpace(s) != [])
  {
    var r := Split(s);
    if s == [] {
      assert r[0] == "";
    } else if SpaceFree(s) {
      assert r == [s];
    } else {
      var ps := Pieces(s);
      var n := SpaceFreePrefix(s);
      assert ps[0] == s[..n];
      if IsRegexSpace(s[0]) && NonSpace(s) != [] {
        assert r != [];
        assert r[0] == ps[0];
      } else if IsRegexSpace(s[0]) {
        ConcatEmptyParts(r);
      } else {
        if r != [] {
          assert r[0] == ps[0] && s[..n][0] == s[0];
        }
      }
    }
  }

  /** s with every maximal run of \s chars replaced by one space. */
  function Collapse(s: string): (r: string)
    decreases |s|
  {
    if s == [] then []
    else if IsRegexSpace(s[0]) then [' '] + Collapse(s[SpaceRun(s)..])
    else [s[0]] + Collapse(s[1..])
  }

  /** The strings of a list with one space between neighbours. */
  function JoinWithSpace(xs: seq<string>): (r: string)
  {
    if xs == [] then []
    else if |xs| == 1 then xs[0]
    else xs[0] + ([' '] + JoinWithSpace(xs[1..]))
  }

  lemma {:induction false} CollapseSpaceFree(s: string)
    requires SpaceFree(s)
    ensures Collapse(s) == s
  {
    if s != [] {
      CollapseSpaceFree(s[1..]);
    }
  }

  /** A prefix of s without \s chars is kept as it is. */
  lemma {:induction false} CollapsePrefixWord(s: string, n: nat)
    requires n <= |s| && forall i :: 0 <= i < n ==> !IsRegexSpace(s[i])
    ensures Collapse(s) == s[..n] + Collapse(s[n..])
  {
    if n > 0 {
      var t := s[1..];
      var tail := Collapse(s[n..]);
      assert Collapse(s) == [s[0]] + Collapse(t);
      assert Collapse(t) == t[..n - 1] + tail by {
        CollapsePrefixWord(t, n - 1);
        assert t[n - 1..] == s[n..];
      }
      assert [s[0]] + (t[..n - 1] + tail) == ([s[0]] + t[..n - 1]) + tail;
      assert [s[0]] + t[..n - 1] == s[..n];
    }
  }

  lemma JoinCons(w: string, xs: seq<string>)
    requires |xs| > 0
    ensures JoinWithSpace([w] + xs) == w + ([' '] + JoinWithSpace(xs))
  {
    assert ([w] + xs)[1..] == xs;
  }

  /** The pieces joined by single spaces are s with its \s runs collapsed, so
      each break between pieces is exactly one maximal run. */
  lemma {:induction false} PiecesJoin(s: string)
    ensures JoinWithSpace(Pieces(s)) == Collapse(s)
    decreases |s|
  {
    var n := SpaceFreePrefix(s);
    if n == |s| {
      assert s[..n] == s;
      CollapseSpaceFree(s);
    } else {
      var rest := s[n..];
      var next := rest[SpaceRun(rest)..];
      PiecesJoin(next);
      CollapseFirstRun(s);
      JoinCons(s[..n], Pieces(next));
    }
  }

  /** The first run of \s chars in s collapses to one space. */
  lemma CollapseFirstRun(s: string)
    requires SpaceFreePrefix(s) < |s|
    ensures var n := SpaceFreePrefix(s);
      var rest := s[n..];
      Collapse(s) == s[..n] + ([' '] + Collapse(rest[SpaceRun(rest)..]))
  {
    var n := SpaceFreePrefix(s);
    var rest := s[n..];
    assert Collapse(rest) == [' '] + Collapse(rest[SpaceRun(rest)..]) by {
      assert rest[0] == s[n];
    }
    assert forall i :: 0 <= i < n ==> s[..n][i] == s[i];
    CollapsePrefixWord(s, n);
  }

  /** The last string of a non-empty list is not empty. */
  predicate EndsNonEmpty(xs: seq<string>)
  {
    |xs| > 0 && xs[|xs| - 1] != ""
  }

  lemma EndsNonEmptyCons(x: string, xs: seq<string>)
    requires EndsNonEmpty(xs)
    ensures EndsNonEmpty([x] + xs)
  {
    assert ([x] + xs)[|xs|] == xs[|xs| - 1];
  }

  /** A non-empty s that does not end with \s has a non-empty last piece. */
  lemma {:induction false} PiecesLastNonEmpty(s: string)
    requires s != [] && !IsRegexSpace(s[|s| - 1])
    ensures EndsNonEmpty(Pieces(s))
    decreases |s|
  {
    var n := SpaceFreePrefix(s);
    if n < |s| {
      var rest := s[n..];
      var next := rest[SpaceRun(rest)..];
      assert |next| < |s| && next != [] && !IsRegexSpace(next[|next| - 1]) by {
        TextAfterRun(s, n);
      }
      PiecesLastNonEmpty(next);
      EndsNonEmptyCons(s[..n], Pieces(next));
    }
  }

  /** What follows the first run of \s chars in s ends as s does; it is not
      empty when s does not end with \s. */
  lemma TextAfterRun(s: string, n: nat)
    requires n < |s| && IsRegexSpace(s[n]) && !IsRegexSpace(s[|s| - 1])
    ensures var rest := s[n..];
      var next := rest[SpaceRun(rest)..];
      |next| < |s| && next != [] && next[|next| - 1] == s[|s| - 1]
  {
    var rest := s[n..];
    var m := SpaceRun(rest);
    assert m > 0;
    assert n + m < |s| by {
      assert IsRegexSpace(rest[m - 1]);
      assert rest[m - 1] == s[n + m - 1];
    }
    assert rest[m..] == s[n + m..];
  }

  /** For s that does not end with \s, the split elements joined by single
      spaces give s with each run of \s collapsed to one space: the elements
      break exactly at the runs, and a leading run leaves "" first. */
  lemma SplitBreaksAtRuns(s: string)
    requires s == [] || !IsRegexSpace(s[|s| - 1])
    ensures JoinWithSpace(Split(s)) == Collapse(s)
  {
    if SpaceFree(s) {
      CollapseSpaceFree(s);
    } else {
      PiecesJoin(s);
      PiecesLastNonEmpty(s);
    }
  }

  /** The pieces of a string that ends with \s: at least two, the last empty. */
  lemma {:induction false} PiecesEndEmpty(s: string)
    requires s != [] && IsRegexSpace(s[|s| - 1])
    ensures EndsEmpty(Pieces(s))
    decreases |s|
  {
    var n := SpaceFreePrefix(s);
    EndSpaceBreaksPrefix(s);
    var rest := s[n..];
    var next := rest[SpaceRun(rest)..];
    TextAfterRunToEnd(s, n);
    if next != [] {
      PiecesEndEmpty(next);
    }
    EndsEmptyCons(s[..n], Pieces(next));
  }

  /** A string that ends with \s has its first \s char before its end. */
  lemma EndSpaceBreaksPrefix(s: string)
    requires s != [] && IsRegexSpace(s[|s| - 1])
    ensures SpaceFreePrefix(s) < |s|
  {
  }

  /** What follows the first run of \s chars in s is shorter than s and, unless
      empty, ends as s does. */
  lemma TextAfterRunToEnd(s: string, n: nat)
    requires n < |s| && IsRegexSpace(s[n])
    ensures var rest := s[n..];
      var next := rest[SpaceRun(rest)..];
      |next| < |s| && (next == [] ==> Pieces(next) == [""]) &&
      (next != [] ==> next[|next| - 1] == s[|s| - 1])
  {
    var rest := s[n..];
    var m := SpaceRun(rest);
    assert m > 0 by {
      assert rest[0] == s[n];
    }
    assert rest[m..] == s[n + m..];
  }

  /** The list has at least two elements and its last is "". */
  predicate EndsEmpty(xs: seq<string>)
  {
    |xs| >= 2 && xs[|xs| - 1] == ""
  }

  lemma EndsEmptyCons(x: string, xs: seq<string>)
    requires xs == [""] || EndsEmpty(xs)
    ensures EndsEmpty([x] + xs)
  {
    assert ([x] + xs)[|xs|] == xs[|xs| - 1];
  }

  /** Joining a list with one more, empty, element adds one trailing space. */
  lemma {:induction false} JoinSnocEmpty(xs: seq<string>)
    requires xs != []
    ensures JoinWithSpace(xs + [""]) == JoinWithSpace(xs) + [' ']
  {
    if |xs| == 1 {
      assert (xs + [""])[1..] == [""];
    } else {
      assert (xs + [""])[1..] == xs[1..] + [""];
      JoinSnocEmpty(xs[1..]);
    }
  }

  /** For s that ends with \s, the split elements joined by single spaces give
      s with each run of \s collapsed to one space, less the space the final
      run collapses to: the elements still break exactly at the runs. */
  lemma SplitBreaksAtRunsTrailing(s: string)
    requires s != [] && IsRegexSpace(s[|s| - 1])
    ensures var c := Collapse(s); |c| > 0 && JoinWithSpace(Split(s)) == c[..|c| - 1]
  {
    var ps := Pieces(s);
    PiecesEndEmpty(s);
    PiecesJoin(s);
    PiecesInnerNonEmptyAfterFirst(s);
    assert !SpaceFree(s);
    var init := ps[..|ps| - 1];
    assert ps == init + [""];
    JoinSnocEmpty(init);
    assert DropTrailingEmpty(ps) == DropTrailingEmpty(init);
    if init[|init| - 1] == "" {
      assert |init| == 1;
      assert DropTrailingEmpty(init) == [];
    }
  }
}
