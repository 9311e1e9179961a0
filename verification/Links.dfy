/**
  Link detection in the broadcast message (`containsUrl`, `extractFirstUrl`): the message is
  searched, case-insensitively, for `https?://` followed by at least one non-space character.
 */
module Links {
  import opened Wrappers
  import opened Text

  /** The `i` flag without `u` folds ASCII letters only. */
  function AsciiLower(c: char): char {
    if 'A' <= c <= 'Z' then (c as int + 32) as char else c
  }

  /** `pattern` (lower case) occurs at position `p` of `t`, ignoring the case of ASCII letters. */
  predicate LooksLike(t: string, p: nat, pattern: string) {
    p + |pattern| <= |t| && forall k :: 0 <= k < |pattern| ==> AsciiLower(t[p + k]) == pattern[k]
  }

  /** Length of the `https?://` at `p`, or 0 when there is none. */
  function SchemeLength(t: string, p: nat): nat {
    if LooksLike(t, p, "https://") then 8
    else if LooksLike(t, p, "http://") then 7
    else 0
  }

  /** The URL pattern matches at position `p`: a scheme followed by at least one non-space character. */
  predicate MatchesAt(t: string, p: nat) {
    var k := SchemeLength(t, p);
    k > 0 && p + k < |t| && !IsSpace(t[p + k])
  }

  /** `containsUrl`: the pattern matches somewhere in the text. */
  predicate ContainsUrl(t: string): (b: bool)
    ensures b <==> FirstMatch(t, 0).Some?
  {
    exists p: nat | p < |t| :: MatchesAt(t, p)
  }

  /** End of the run of non-space characters that starts at `i` (the greedy `\S+`). */
  function RunEnd(t: string, i: nat): (e: nat)
    requires i <= |t|
    ensures i <= e <= |t|
    ensures forall j :: i <= j < e ==> !IsSpace(t[j])
    ensures e == |t| || IsSpace(t[e])
    decreases |t| - i
  {
    if i == |t| || IsSpace(t[i]) then i else RunEnd(t, i + 1)
  }

  /** Leftmost position at or after `from` where the pattern matches. */
  function FirstMatch(t: string, from: nat): (r: Option<nat>)
    ensures r.Some? ==> from <= r.value < |t| && MatchesAt(t, r.value)
    ensures r.Some? ==> forall q :: from <= q < r.value ==> !MatchesAt(t, q)
    ensures r.None? ==> forall q :: from <= q < |t| ==> !MatchesAt(t, q)
    decreases |t| - from
  {
    if from >= |t| then None
    else if MatchesAt(t, from) then Some(from)
    else FirstMatch(t, from + 1)
  }

  /** The closing brackets and sentence punctuation that are not taken as part of a URL. */
  predicate IsTrailingPunctuation(c: char) {
    c == ')' || c == ']' || c == '}' || c == '>' || c == ',' || c == '.' || c == '?' || c == '!'
  }

  /** Drops the longest run of trailing punctuation. */
  function StripTrailingPunctuation(s: string): (r: string)
    ensures |r| <= |s| && r == s[..|r|]
    ensures r == [] || !IsTrailingPunctuation(r[|r| - 1])
    ensures forall i :: |r| <= i < |s| ==> IsTrailingPunctuation(s[i])
  {
    if s != [] && IsTrailingPunctuation(s[|s| - 1]) then StripTrailingPunctuation(s[..|s| - 1]) else s
  }

  /** The stripping stops at the last character that is not punctuation. */
  lemma {:induction false} StripKeepsPrefix(s: string, m: nat)
    requires 0 < m <= |s| && !IsTrailingPunctuation(s[m - 1])
    ensures m <= |StripTrailingPunctuation(s)|
    decreases |s|
  {
    if |s| > m && IsTrailingPunctuation(s[|s| - 1]) {
      StripKeepsPrefix(s[..|s| - 1], m);
    }
  }

  /** The text the pattern matches at `p`: the scheme and the greedy run of non-space characters after it. */
  function MatchedText(t: string, p: nat): string
    requires MatchesAt(t, p)
  {
    t[p..RunEnd(t, p + SchemeLength(t, p))]
  }

  /** `extractFirstUrl`: the leftmost match, with its trailing punctuation removed. */
  function ExtractFirstUrl(t: string): (r: Option<string>)
    ensures r.None? <==> forall p :: 0 <= p < |t| ==> !MatchesAt(t, p)
    ensures r.Some? ==> |r.value| <= |t|
  {
    match FirstMatch(t, 0)
    case None => None
    case Some(p) => Some(StripTrailingPunctuation(MatchedText(t, p)))
  }

  predicate StartsWithScheme(u: string) {
    LooksLike(u, 0, "http://") || LooksLike(u, 0, "https://")
  }

  predicate NoSpace(u: string) {
    forall i :: 0 <= i < |u| ==> !IsSpace(u[i])
  }

  /** `extractFirstUrl` yields nothing exactly when `containsUrl` is false. */
  lemma ExtractFirstUrlIffContainsUrl(t: string)
    ensures ExtractFirstUrl(t).None? <==> !ContainsUrl(t)
  {
    match FirstMatch(t, 0)
    case None =>
    case Some(p) =>
      assert MatchesAt(t, p);
  }

  /** The matched text starts with the scheme, which ends in `/`, and holds no white space. */
  lemma MatchedTextShape(t: string, p: nat)
    requires MatchesAt(t, p)
    ensures var m := MatchedText(t, p);
            var k := SchemeLength(t, p);
            && k < |m| && m[k - 1] == '/'
            && StartsWithScheme(m[..k])
            && NoSpace(m)
  {
    var k := SchemeLength(t, p);
    var e := RunEnd(t, p + k);
    var m := MatchedText(t, p);
    var pattern := if k == 8 then "https://" else "http://";
    assert LooksLike(t, p, pattern);
    assert LooksLike(m[..k], 0, pattern) by {
      forall j | 0 <= j < k ensures AsciiLower(m[..k][j]) == pattern[j] {
        assert m[..k][j] == t[p + j];
      }
    }
    assert m[k - 1] == t[p + (k - 1)];
    assert AsciiLower(t[p + (k - 1)]) == pattern[k - 1] == '/';
    forall i | 0 <= i < |m| ensures !IsSpace(m[i]) {
      assert m[i] == t[p + i];
      if i < k {
        assert AsciiLower(t[p + i]) == pattern[i];
      } else {
        assert p + k <= p + i < e;
      }
    }
  }

  /**
    A URL found starts with `http://` or `https://` in any letter case, holds no white space,
    does not end in punctuation, and is read from the leftmost match onwards.
   */
  lemma ExtractedUrlShape(t: string, u: string)
    requires ExtractFirstUrl(t) == Some(u)
    ensures |u| >= 7 && StartsWithScheme(u)
    ensures NoSpace(u)
    ensures !IsTrailingPunctuation(u[|u| - 1])
    ensures exists p: nat :: p < |t| && MatchesAt(t, p) && u <= t[p..] && forall q :: 0 <= q < p ==> !MatchesAt(t, q)
  {
    var p := FirstMatch(t, 0).value;
    var k := SchemeLength(t, p);
    var m := MatchedText(t, p);
    MatchedTextShape(t, p);
    assert u == StripTrailingPunctuation(m);
    StripKeepsPrefix(m, k);
    assert u[..k] == m[..k];
    assert StartsWithScheme(u) by {
      if k == 8 {
        assert LooksLike(m[..k], 0, "https://");
      } else {
        assert LooksLike(m[..k], 0, "http://");
      }
    }
    assert NoSpace(u) by {
      forall i | 0 <= i < |u| ensures !IsSpace(u[i]) {
        assert u[i] == m[i];
      }
    }
    assert u <= t[p..];
  }
}
