/**
  The string primitives of ECMAScript that the recipient parser, the URL extractor and
  the console page rely on: the white-space character class, trimming, deleting every
  character that is not a digit, and splitting on runs of separators.
 */
module Text {

  /** WhiteSpace or LineTerminator: what `\s` matches and what `trim` removes. */
  predicate IsSpace(c: char) {
    c == '\t' || c == '\n' || c == '\U{B}' || c == '\U{C}' || c == '\r' || c == ' '
    || c == '\U{A0}' || c == '\U{1680}' || ('\U{2000}' <= c <= '\U{200A}')
    || c == '\U{2028}' || c == '\U{2029}' || c == '\U{202F}' || c == '\U{205F}'
    || c == '\U{3000}' || c == '\U{FEFF}'
  }

  /** `\d`: the ASCII digits only. */
  predicate IsDigit(c: char) {
    '0' <= c <= '9'
  }

  predicate AllDigits(s: string) {
    forall i :: 0 <= i < |s| ==> IsDigit(s[i])
  }

  /** The characters the recipient text is split on: semicolon, line feed and carriage return. */
  predicate IsSeparator(c: char) {
    c == ';' || c == '\n' || c == '\r'
  }

  predicate NoSeparator(s: string) {
    forall i :: 0 <= i < |s| ==> !IsSeparator(s[i])
  }

  /** The digits of `s`, in order, with every other character deleted. */
  function Digits(s: string): (d: string)
    ensures AllDigits(d)
    ensures |d| <= |s|
  {
    if s == [] then []
    else (if IsDigit(s[0]) then [s[0]] else []) + Digits(s[1..])
  }

  lemma {:induction false} DigitsAppend(a: string, b: string)
    ensures Digits(a + b) == Digits(a) + Digits(b)
  {
    if a == [] {
      assert a + b == b;
    } else {
      assert (a + b)[1..] == a[1..] + b;
      DigitsAppend(a[1..], b);
    }
  }

  /** Removes the leading white space. */
  function TrimStart(s: string): (r: string)
    ensures |r| <= |s| && r == s[|s| - |r|..]
    ensures forall i :: 0 <= i < |s| - |r| ==> IsSpace(s[i])
    ensures r == [] || !IsSpace(r[0])
  {
    if s != [] && IsSpace(s[0]) then TrimStart(s[1..]) else s
  }

  /** Removes the trailing white space. */
  function TrimEnd(s: string): (r: string)
    ensures |r| <= |s| && r == s[..|r|]
    ensures forall i :: |r| <= i < |s| ==> IsSpace(s[i])
    ensures r == [] || !IsSpace(r[|r| - 1])
  {
    if s != [] && IsSpace(s[|s| - 1]) then TrimEnd(s[..|s| - 1]) else s
  }

  /** Removes the white space at both ends. */
  function Trim(s: string): (r: string)
    ensures |r| <= |s|
    ensures r == [] || (!IsSpace(r[0]) && !IsSpace(r[|r| - 1]))
  {
    var t := TrimStart(s);
    var r := TrimEnd(t);
    assert r != [] ==> r[0] == t[0];
    r
  }

  /** Leading white space holds no digit. */
  lemma {:induction false} TrimStartKeepsDigits(s: string)
    ensures Digits(TrimStart(s)) == Digits(s)
  {
    if s != [] && IsSpace(s[0]) {
      TrimStartKeepsDigits(s[1..]);
    }
  }

  /** Trailing white space holds no digit. */
  lemma {:induction false} TrimEndKeepsDigits(s: string)
    ensures Digits(TrimEnd(s)) == Digits(s)
  {
    if s != [] && IsSpace(s[|s| - 1]) {
      var init, last := s[..|s| - 1], s[|s| - 1];
      TrimEndKeepsDigits(init);
      assert s == init + [last];
      DigitsAppend(init, [last]);
      assert Digits([last]) == [] by {
        assert [last][1..] == [];
      }
    }
  }

  /** Trimming never touches a digit, so the digits of a chunk are those of its trimmed form. */
  lemma TrimKeepsDigits(s: string)
    ensures Digits(Trim(s)) == Digits(s)
  {
    TrimStartKeepsDigits(s);
    TrimEndKeepsDigits(TrimStart(s));
  }

  /**
    The split of `s` on runs of separators with the empty pieces dropped: the maximal runs of
    non-separator characters, left to right. `cur` is the run read so far.
   */
  function SplitRuns(s: string, cur: string): (pieces: seq<string>)
    decreases |s|
  {
    if s == [] then
      (if cur == [] then [] else [cur])
    else if IsSeparator(s[0]) then
      (if cur == [] then [] else [cur]) + SplitRuns(s[1..], [])
    else
      SplitRuns(s[1..], cur + [s[0]])
  }

  function Pieces(s: string): (pieces: seq<string>)
    ensures forall i :: 0 <= i < |pieces| ==> pieces[i] != [] && NoSeparator(pieces[i])
  {
    SplitRunsWellFormed(s, []);
    SplitRuns(s, [])
  }

  /** The characters of `s` that are not separators, in order. */
  function WithoutSeparators(s: string): string {
    if s == [] then []
    else (if IsSeparator(s[0]) then [] else [s[0]]) + WithoutSeparators(s[1..])
  }

  function Concat(pieces: seq<string>): string {
    if pieces == [] then [] else pieces[0] + Concat(pieces[1..])
  }

  lemma {:induction false} ConcatAppend(a: seq<string>, b: seq<string>)
    ensures Concat(a + b) == Concat(a) + Concat(b)
  {
    if a == [] {
      assert a + b == b;
    } else {
      assert (a + b)[1..] == a[1..] + b;
      ConcatAppend(a[1..], b);
    }
  }

  /** Every piece is a non-empty run free of separators. */
  lemma {:induction false} SplitRunsWellFormed(s: string, cur: string)
    requires NoSeparator(cur)
    ensures forall i :: 0 <= i < |SplitRuns(s, cur)| ==>
              SplitRuns(s, cur)[i] != [] && NoSeparator(SplitRuns(s, cur)[i])
    decreases |s|
  {
    if s == [] {
    } else if IsSeparator(s[0]) {
      SplitRunsWellFormed(s[1..], []);
    } else {
      SplitRunsWellFormed(s[1..], cur + [s[0]]);
    }
  }

  /** Gluing the pieces back together gives the input with its separators deleted: nothing is lost or reordered. */
  lemma {:induction false} SplitRunsCover(s: string, cur: string)
    ensures Concat(SplitRuns(s, cur)) == cur + WithoutSeparators(s)
    decreases |s|
  {
    if s == [] {
      assert cur + [] == cur;
    } else if IsSeparator(s[0]) {
      var head: seq<string> := if cur == [] then [] else [cur];
      SplitRunsCover(s[1..], []);
      ConcatAppend(head, SplitRuns(s[1..], []));
      assert Concat(head) == cur;
    } else {
      SplitRunsCover(s[1..], cur + [s[0]]);
      assert cur + [s[0]] + WithoutSeparators(s[1..]) == cur + WithoutSeparators(s);
    }
  }

  lemma PiecesSpec(s: string)
    ensures forall i :: 0 <= i < |Pieces(s)| ==> Pieces(s)[i] != [] && NoSeparator(Pieces(s)[i])
    ensures Concat(Pieces(s)) == WithoutSeparators(s)
  {
    SplitRunsWellFormed(s, []);
    SplitRunsCover(s, []);
  }

  /** A run without separators continues the current piece to the end. */
  lemma {:induction false} SplitRunsOfRun(w: string, cur: string)
    requires NoSeparator(w)
    ensures SplitRuns(w, cur) == if cur + w == [] then [] else [cur + w]
    decreases |w|
  {
    if w != [] {
      SplitRunsOfRun(w[1..], cur + [w[0]]);
      assert cur + [w[0]] + w[1..] == cur + w;
    } else {
      assert cur + w == cur;
    }
  }

  /** A non-empty text without separators is a single piece. */
  lemma PiecesOfRun(w: string)
    requires w != [] && NoSeparator(w)
    ensures Pieces(w) == [w]
  {
    SplitRunsOfRun(w, []);
    assert [] + w == w;
  }

  /** A separator ends the current piece and starts a fresh one. */
  lemma {:induction false} SplitRunsAtSeparator(a: string, cur: string, c: char, b: string)
    requires IsSeparator(c)
    ensures SplitRuns(a + [c] + b, cur) == SplitRuns(a, cur) + SplitRuns(b, [])
    decreases |a|
  {
    var head: seq<string> := if cur == [] then [] else [cur];
    if a == [] {
      assert a + [c] + b == [c] + b;
      assert ([c] + b)[1..] == b;
    } else {
      var rest := a[1..] + [c] + b;
      assert (a + [c] + b)[0] == a[0] && (a + [c] + b)[1..] == rest;
      if IsSeparator(a[0]) {
        SplitRunsAtSeparator(a[1..], [], c, b);
        assert SplitRuns(a + [c] + b, cur) == head + SplitRuns(rest, []);
        assert SplitRuns(a, cur) == head + SplitRuns(a[1..], []);
      } else {
        SplitRunsAtSeparator(a[1..], cur + [a[0]], c, b);
      }
    }
  }

  /**
    The pieces of a text split at one of its separators are the pieces of the two sides: with
    `Pieces([]) == []` and `PiecesOfRun` this determines `Pieces` on every text.
   */
  lemma PiecesAtSeparator(a: string, c: char, b: string)
    requires IsSeparator(c)
    ensures Pieces(a + [c] + b) == Pieces(a) + Pieces(b)
    ensures Pieces([]) == []
  {
    SplitRunsAtSeparator(a, [], c, b);
  }
}
