/** What the string operations mean, stated by position. */
module TextProperties {
  import opened Text

  // ── searching ──────────────────────────────────────────────────────────────

  /** `part` stands in `s` at position `i`. */
  predicate StandsAt(s: string, part: string, i: nat) {
    i + |part| <= |s| && s[i..i + |part|] == part
  }

  lemma {:induction false} ContainsIff(s: string, part: string)
    ensures Contains(s, part) <==> exists i: nat :: StandsAt(s, part, i)
  {
    if HasPrefix(s, part) {
      assert StandsAt(s, part, 0);
    } else if s != "" {
      ContainsIff(s[1..], part);
      if i: nat :| StandsAt(s[1..], part, i) {
        assert s[i + 1..i + 1 + |part|] == s[1..][i..i + |part|];
        assert StandsAt(s, part, i + 1);
      }
      if i: nat :| StandsAt(s, part, i) {
        assert i > 0;
        assert s[1..][i - 1..i - 1 + |part|] == s[i..i + |part|];
        assert StandsAt(s[1..], part, i - 1);
      }
    }
  }

  /** A part put anywhere is found. */
  lemma PartIsFound(before: string, part: string, after: string)
    ensures Contains(before + part + after, part)
  {
    var whole := before + part + after;
    assert whole[|before|..|before| + |part|] == part;
    assert StandsAt(whole, part, |before|);
    ContainsIff(whole, part);
  }

  /** Nothing before it is the character, so it is found where it stands, or past the end. */
  lemma IndexAt(before: string, c: char, after: string)
    requires c !in before && (after == "" || after[0] == c)
    ensures IndexOf(before + after, c) == |before|
  {
    var s, i := before + after, IndexOf(before + after, c);
    assert forall k :: 0 <= k < |before| ==> s[k] == before[k];
    assert after != "" ==> s[|before|] == c;
    assert i >= |before|;
    assert forall k :: 0 <= k < i ==> s[..i][k] == s[k];
  }

  // ── splitting ──────────────────────────────────────────────────────────────

  function Join(parts: seq<string>, c: char): string
    requires parts != []
  {
    if |parts| == 1 then parts[0] else parts[0] + [c] + Join(parts[1..], c)
  }

  /** Splitting loses nothing and leaves no separator in a piece: two conditions that only one list of pieces meets. */
  lemma {:induction false} SplitIsJoined(s: string, c: char)
    ensures Join(Split(s, c), c) == s && forall p :: p in Split(s, c) ==> c !in p
    decreases |s|
  {
    var i := IndexOf(s, c);
    if i < |s| {
      SplitIsJoined(s[i + 1..], c);
      var rest := Split(s[i + 1..], c);
      assert Split(s, c)[1..] == rest;
      assert s == s[..i] + [c] + s[i + 1..];
    }
  }

  // ── trimming and case ──────────────────────────────────────────────────────

  predicate AllSpace(s: string) {
    forall i :: 0 <= i < |s| ==> IsSpace(s[i])
  }

  /** The text neither starts nor ends in white space. */
  predicate Tight(s: string) {
    s == "" || (!IsSpace(s[0]) && !IsSpace(s[|s| - 1]))
  }

  lemma {:induction false} TrimLeftDropsSpace(s: string) returns (i: nat)
    ensures i <= |s| && TrimLeft(s) == s[i..] && AllSpace(s[..i])
    ensures TrimLeft(s) == "" || !IsSpace(TrimLeft(s)[0])
  {
    if s != "" && IsSpace(s[0]) {
      i := TrimLeftDropsSpace(s[1..]);
      assert s[..i + 1] == [s[0]] + s[1..][..i];
      i := i + 1;
    } else {
      i := 0;
    }
  }

  lemma {:induction false} TrimRightDropsSpace(s: string) returns (i: nat)
    ensures i <= |s| && TrimRight(s) == s[..i] && AllSpace(s[i..])
    ensures TrimRight(s) == "" || !IsSpace(TrimRight(s)[|TrimRight(s)| - 1])
  {
    if s != "" && IsSpace(s[|s| - 1]) {
      i := TrimRightDropsSpace(s[..|s| - 1]);
      assert s[i..] == s[..|s| - 1][i..] + [s[|s| - 1]];
    } else {
      i := |s|;
    }
  }

  /** Trimming cuts white space off both ends, and all of it. */
  lemma TrimSpaceExactly(s: string) returns (i: nat, j: nat)
    ensures i <= j <= |s| && TrimSpace(s) == s[i..j] && AllSpace(s[..i]) && AllSpace(s[j..]) && Tight(TrimSpace(s))
  {
    i := TrimLeftDropsSpace(s);
    var k := TrimRightDropsSpace(s[i..]);
    j := i + k;
    assert s[i..][..k] == s[i..j] && s[i..][k..] == s[j..];
  }

  lemma TightIsTrimmed(s: string)
    requires Tight(s)
    ensures TrimSpace(s) == s
  {
  }

  /** Trimming on the right stops at the last character that is no white space. */
  lemma {:induction false} TrimRightStops(s: string, after: string)
    requires s != "" && !IsSpace(s[|s| - 1])
    ensures TrimRight(s + after) == s + TrimRight(after)
    decreases |after|
  {
    if after == "" {
      assert s + after == s;
    } else {
      assert (s + after)[..|s + after| - 1] == s + after[..|after| - 1];
      if IsSpace(after[|after| - 1]) {
        TrimRightStops(s, after[..|after| - 1]);
      }
    }
  }

  /** Letters are no white space, in either case. */
  lemma SpaceHasNoCase(c: char)
    ensures IsSpace(LowerChar(c)) == IsSpace(c)
  {
  }

  lemma {:induction false} TrimLeftCase(s: string)
    ensures ToLower(TrimLeft(s)) == TrimLeft(ToLower(s))
  {
    if s != "" {
      SpaceHasNoCase(s[0]);
      assert ToLower(s)[1..] == ToLower(s[1..]);
      TrimLeftCase(s[1..]);
    }
  }

  lemma {:induction false} TrimRightCase(s: string)
    ensures ToLower(TrimRight(s)) == TrimRight(ToLower(s))
  {
    if s != "" {
      SpaceHasNoCase(s[|s| - 1]);
      assert ToLower(s)[..|s| - 1] == ToLower(s[..|s| - 1]);
      TrimRightCase(s[..|s| - 1]);
    }
  }

  /** Trimming and folding case may be done in either order. */
  lemma TrimAndCaseCommute(s: string)
    ensures ToLower(TrimSpace(s)) == TrimSpace(ToLower(s))
  {
    TrimRightCase(TrimLeft(s));
    TrimLeftCase(s);
  }

  /** Folding case twice is folding it once, and a letter in either case folds to the same. */
  lemma CaseFolds(s: string)
    ensures ToLower(ToLower(s)) == ToLower(s) && ToLower(ToUpper(s)) == ToLower(s)
  {
  }
}
