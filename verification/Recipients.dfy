/**
  The recipient normaliser of the broadcast manager (`sanitizeRecipients`): raw text typed by
  the user becomes the ordered, duplicate-free list of phone numbers a broadcast is sent to.
 */
module Recipients {
  import opened Wrappers
  import opened Text

  /** The country code that replaces a leading local `0`. */
  const CountryPrefix: string := "62"
  const MinDigits: nat := 6
  const MaxDigits: nat := 15

  /** A whole text of 6 to 15 ASCII digits. */
  predicate IsAddress(s: string) {
    MinDigits <= |s| <= MaxDigits && AllDigits(s)
  }

  /** Trims each piece and drops those that trim to nothing. */
  function KeepNonBlank(pieces: seq<string>): (chunks: seq<string>)
    ensures forall i :: 0 <= i < |chunks| ==> chunks[i] != []
  {
    if pieces == [] then []
    else
      var t := Trim(pieces[0]);
      (if t == [] then [] else [t]) + KeepNonBlank(pieces[1..])
  }

  /** The chunks of the raw text, in input order. */
  function Chunks(raw: string): (chunks: seq<string>)
    ensures forall i :: 0 <= i < |chunks| ==> chunks[i] != []
  {
    KeepNonBlank(Pieces(raw))
  }

  /**
    One chunk to at most one address: keep the digits, rewrite a leading `0` to the country
    prefix, drop a leading `+`, and keep the result only if it has 6 to 15 digits.
   */
  function Normalize(chunk: string): (r: Option<string>)
    ensures r.Some? ==> IsAddress(r.value)
  {
    var digits := Digits(chunk);
    if digits == [] then None
    else
      var local := if digits[0] == '0' then CountryPrefix + digits[1..] else digits;
      var candidate := DropPlus(local);
      if IsAddress(candidate) then Some(candidate) else None
  }

  /** Removes a leading `+`. */
  function DropPlus(s: string): (r: string)
    ensures s != [] && s[0] == '+' ==> r == s[1..]
    ensures AllDigits(s) ==> r == s
  {
    if s != [] && s[0] == '+' then s[1..] else s
  }

  /** What `Normalize` does, stated without the `+` branch: that branch can never be taken. */
  lemma NormalizeSpec(chunk: string)
    ensures Digits(chunk) == [] ==> Normalize(chunk) == None
    ensures Digits(chunk) != [] && Digits(chunk)[0] == '0' ==>
              Normalize(chunk) == (var c := CountryPrefix + Digits(chunk)[1..];
                                   if MinDigits <= |c| <= MaxDigits then Some(c) else None)
    ensures Digits(chunk) != [] && Digits(chunk)[0] != '0' ==>
              Normalize(chunk) == (var c := Digits(chunk);
                                   if MinDigits <= |c| <= MaxDigits then Some(c) else None)
  {
    var d := Digits(chunk);
    if d != [] {
      assert d[0] != '+';
      if d[0] == '0' {
        var c := CountryPrefix + d[1..];
        assert c[0] == '6';
        assert AllDigits(c) by {
          forall i | 0 <= i < |c| ensures IsDigit(c[i]) {
            if i >= 2 { assert c[i] == d[i - 1]; }
          }
        }
      }
    }
  }

  /** The `0…` and `62…` spellings of one number normalise to the same address. */
  lemma LocalAndInternationalAgree(rest: string)
    requires AllDigits(rest)
    ensures Normalize(['0'] + rest) == Normalize(CountryPrefix + rest)
  {
    DigitsOfDigits(['0'] + rest);
    DigitsOfDigits(CountryPrefix + rest);
    NormalizeSpec(['0'] + rest);
    NormalizeSpec(CountryPrefix + rest);
    assert (['0'] + rest)[1..] == rest;
  }

  lemma {:induction false} DigitsOfDigits(s: string)
    requires AllDigits(s)
    ensures Digits(s) == s
  {
    if s != [] {
      DigitsOfDigits(s[1..]);
    }
  }

  /** The addresses the chunks normalise to, duplicates included, in chunk order. */
  function Candidates(chunks: seq<string>): (cs: seq<string>)
    ensures forall i :: 0 <= i < |cs| ==> IsAddress(cs[i])
  {
    if chunks == [] then []
    else
      var last := chunks[|chunks| - 1];
      Candidates(chunks[..|chunks| - 1]) + (match Normalize(last) case Some(a) => [a] case None => [])
  }

  lemma {:induction false} CandidatesMembers(chunks: seq<string>, x: string)
    ensures x in Candidates(chunks) <==> exists i :: 0 <= i < |chunks| && Normalize(chunks[i]) == Some(x)
  {
    if chunks != [] {
      var init, last := chunks[..|chunks| - 1], chunks[|chunks| - 1];
      var tail: seq<string> := match Normalize(last) case Some(a) => [a] case None => [];
      assert Candidates(chunks) == Candidates(init) + tail;
      assert x in tail <==> Normalize(last) == Some(x);
      CandidatesMembers(init, x);
      if x in Candidates(init) {
        var i :| 0 <= i < |init| && Normalize(init[i]) == Some(x);
        assert chunks[i] == init[i];
      } else if x in tail {
        assert Normalize(chunks[|chunks| - 1]) == Some(x);
      }
      if x !in Candidates(chunks) {
        forall i | 0 <= i < |chunks| ensures Normalize(chunks[i]) != Some(x) {
          if i < |init| {
            assert init[i] == chunks[i];
          }
        }
      }
    }
  }

  predicate NoDuplicates<T(==)>(s: seq<T>) {
    forall i, j :: 0 <= i < j < |s| ==> s[i] != s[j]
  }

  /** The position of the first occurrence of `x` in `s`. */
  function IndexOf<T(==)>(s: seq<T>, x: T): (k: nat)
    requires x in s
    ensures k < |s| && s[k] == x && x !in s[..k]
  {
    if x in s[..|s| - 1] then IndexOf(s[..|s| - 1], x) else |s| - 1
  }

  /** The elements of an insertion-ordered set filled from `s`: the first occurrence of each, in order. */
  function Dedup<T(==)>(s: seq<T>): (r: seq<T>)
    ensures forall x :: x in r ==> x in s
  {
    if s == [] then []
    else
      var init := Dedup(s[..|s| - 1]);
      if s[|s| - 1] in init then init else init + [s[|s| - 1]]
  }

  /** Dedup keeps every element once, loses none, and lists them in order of first occurrence. */
  lemma {:induction false} DedupSpec<T>(s: seq<T>)
    ensures NoDuplicates(Dedup(s))
    ensures forall x :: x in Dedup(s) ==> x in s
    ensures forall x :: x in s ==> x in Dedup(s)
    ensures forall i, j :: 0 <= i < j < |Dedup(s)| ==> IndexOf(s, Dedup(s)[i]) < IndexOf(s, Dedup(s)[j])
  {
    if s != [] {
      var init := s[..|s| - 1];
      var last := s[|s| - 1];
      DedupSpec(init);
      assert s == init + [last];
      var d := Dedup(s);
      forall x | x in init ensures IndexOf(s, x) == IndexOf(init, x) {
      }
      if last !in Dedup(init) {
        assert last !in init;
        assert d == Dedup(init) + [last];
        forall i, j | 0 <= i < j < |d| ensures IndexOf(s, d[i]) < IndexOf(s, d[j]) {
          if j == |d| - 1 {
            assert d[i] == Dedup(init)[i];
            assert d[i] in init;
          } else {
            assert d[i] == Dedup(init)[i] && d[j] == Dedup(init)[j];
          }
        }
      }
    }
  }

  /** The recipients the manager derives from the raw recipient text. */
  function Sanitized(raw: string): (addresses: seq<string>)
    ensures forall a :: a in addresses ==> IsAddress(a)
  {
    Dedup(Candidates(Chunks(raw)))
  }

  /** The addresses of a chunk sequence, once each, in order of first occurrence. */
  lemma DistinctCandidatesSpec(chunks: seq<string>)
    ensures NoDuplicates(Dedup(Candidates(chunks)))
    ensures forall a :: a in Dedup(Candidates(chunks)) ==> IsAddress(a)
    ensures forall a :: a in Dedup(Candidates(chunks)) ==>
              exists i :: 0 <= i < |chunks| && Normalize(chunks[i]) == Some(a)
    ensures forall i :: 0 <= i < |chunks| && Normalize(chunks[i]).Some? ==>
              Normalize(chunks[i]).value in Dedup(Candidates(chunks))
  {
    var cands := Candidates(chunks);
    var r := Dedup(cands);
    DedupSpec(cands);
    forall a | a in r ensures IsAddress(a) && exists i :: 0 <= i < |chunks| && Normalize(chunks[i]) == Some(a) {
      assert a in cands;
      CandidatesMembers(chunks, a);
    }
    forall i | 0 <= i < |chunks| && Normalize(chunks[i]).Some? ensures Normalize(chunks[i]).value in r {
      CandidatesMembers(chunks, Normalize(chunks[i]).value);
    }
  }

  /**
    The list is duplicate-free, every entry has 6 to 15 digits, an address is listed exactly when
    some chunk normalises to it, and addresses appear in the order their first chunk appears.
   */
  lemma SanitizedSpec(raw: string)
    ensures NoDuplicates(Sanitized(raw))
    ensures forall a :: a in Sanitized(raw) ==> IsAddress(a)
    ensures forall a :: a in Sanitized(raw) ==>
              exists i :: 0 <= i < |Chunks(raw)| && Normalize(Chunks(raw)[i]) == Some(a)
    ensures forall i :: 0 <= i < |Chunks(raw)| && Normalize(Chunks(raw)[i]).Some? ==>
              Normalize(Chunks(raw)[i]).value in Sanitized(raw)
    ensures forall i, j :: 0 <= i < j < |Sanitized(raw)| ==>
              IndexOf(Candidates(Chunks(raw)), Sanitized(raw)[i])
              < IndexOf(Candidates(Chunks(raw)), Sanitized(raw)[j])
  {
    DistinctCandidatesSpec(Chunks(raw));
    DedupSpec(Candidates(Chunks(raw)));
  }

  /** Empty text, or text without a single valid number, yields no recipient; it is never an error. */
  lemma SanitizedEmptyExactly(raw: string)
    ensures Sanitized(raw) == [] <==> forall i :: 0 <= i < |Chunks(raw)| ==> Normalize(Chunks(raw)[i]) == None
    ensures Sanitized("") == []
  {
    SanitizedSpec(raw);
    if Sanitized(raw) != [] {
      assert Sanitized(raw)[0] in Sanitized(raw);
    }
    forall i | 0 <= i < |Chunks(raw)| && Normalize(Chunks(raw)[i]).Some?
      ensures Sanitized(raw) != []
    {
      assert Normalize(Chunks(raw)[i]).value in Sanitized(raw);
    }
  }

  lemma CandidatesStep(chunks: seq<string>, i: nat)
    requires i < |chunks|
    ensures Candidates(chunks[..i + 1]) ==
            Candidates(chunks[..i]) + (match Normalize(chunks[i]) case Some(a) => [a] case None => [])
  {
    assert chunks[..i + 1][..i] == chunks[..i];
  }

  lemma DedupStep<T>(s: seq<T>, x: T)
    ensures Dedup(s + [x]) == if x in Dedup(s) then Dedup(s) else Dedup(s) + [x]
  {
    assert (s + [x])[..|s|] == s;
  }

  /** `sanitizeRecipients`: one pass over the chunks, adding each accepted candidate to an insertion-ordered set. */
  method SanitizeRecipients(raw: string) returns (normalized: seq<string>)
    ensures normalized == Sanitized(raw)
    ensures NoDuplicates(normalized) && forall a :: a in normalized ==> IsAddress(a)
  {
    var chunks := Chunks(raw);
    normalized := [];
    for i := 0 to |chunks|
      invariant normalized == Dedup(Candidates(chunks[..i]))
    {
      CandidatesStep(chunks, i);
      var digitsOnly := Digits(chunks[i]);
      if digitsOnly == [] {
        assert Normalize(chunks[i]) == None;
        assert Candidates(chunks[..i + 1]) == Candidates(chunks[..i]);
        continue;
      }
      var candidate := digitsOnly;
      if candidate[0] == '0' {
        candidate := CountryPrefix + candidate[1..];
      }
      candidate := DropPlus(candidate);
      if !IsAddress(candidate) {
        assert Normalize(chunks[i]) == None;
        assert Candidates(chunks[..i + 1]) == Candidates(chunks[..i]);
        continue;
      }
      assert Normalize(chunks[i]) == Some(candidate);
      DedupStep(Candidates(chunks[..i]), candidate);
      if candidate !in normalized {
        normalized := normalized + [candidate];
      }
    }
    assert chunks[..|chunks|] == chunks;
    SanitizedSpec(raw);
  }
}
