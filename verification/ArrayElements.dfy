/** What an array's elements look like in its text: as they are printed here, and as PostgreSQL sends them. */
module ArrayElements {
  import opened Text
  import opened TextProperties
  import opened StringArray

  // ── printing ───────────────────────────────────────────────────────────────

  lemma {:induction false} EscapingIsByCharacter(a: string, b: string)
    ensures Escape(a + b) == Escape(a) + Escape(b)
  {
    if b == "" {
      assert a + b == a;
    } else {
      var front := b[..|b| - 1];
      assert (a + b)[..|a + b| - 1] == a + front;
      EscapingIsByCharacter(a, front);
    }
  }

  /** A double quote is printed behind a backslash, and every other character as it is. */
  lemma EscapeOneExactly(c: char)
    ensures Escape([c]) == if c == '"' then ['\\', '"'] else [c]
  {
    assert [c][..0] == "";
  }

  /** The text is the elements between double quotes, a comma between two of them, in braces. */
  lemma {:induction false} ElementsStandInOrder(before: seq<string>, after: seq<string>)
    requires before != [] && after != []
    ensures Joined(before + after) == Joined(before) + "," + Joined(after)
  {
    assert (before + after)[1..] == before[1..] + after;
    if |before| > 1 {
      ElementsStandInOrder(before[1..], after);
    }
  }

  // ── reading ────────────────────────────────────────────────────────────────

  predicate OnlyQuotes(s: string) {
    forall i :: 0 <= i < |s| ==> s[i] == '"'
  }

  lemma {:induction false} LeftQuotesGo(s: string) returns (i: nat)
    ensures i <= |s| && TrimLeftQuotes(s) == s[i..] && OnlyQuotes(s[..i])
    ensures TrimLeftQuotes(s) == "" || TrimLeftQuotes(s)[0] != '"'
  {
    if s != "" && s[0] == '"' {
      i := LeftQuotesGo(s[1..]);
      assert s[..i + 1] == [s[0]] + s[1..][..i];
      i := i + 1;
    } else {
      i := 0;
    }
  }

  lemma {:induction false} RightQuotesGo(s: string) returns (i: nat)
    ensures i <= |s| && TrimRightQuotes(s) == s[..i] && OnlyQuotes(s[i..])
    ensures TrimRightQuotes(s) == "" || TrimRightQuotes(s)[|TrimRightQuotes(s)| - 1] != '"'
  {
    if s != "" && s[|s| - 1] == '"' {
      i := RightQuotesGo(s[..|s| - 1]);
      assert s[i..] == s[..|s| - 1][i..] + [s[|s| - 1]];
    } else {
      i := |s|;
    }
  }

  /** Quotes, nothing else, are cut off both ends, and all of them. */
  lemma TrimQuotesExactly(s: string) returns (i: nat, j: nat)
    ensures i <= j <= |s| && TrimQuotes(s) == s[i..j] && OnlyQuotes(s[..i]) && OnlyQuotes(s[j..])
    ensures TrimQuotes(s) == "" || (TrimQuotes(s)[0] != '"' && TrimQuotes(s)[|TrimQuotes(s)| - 1] != '"')
  {
    i := LeftQuotesGo(s);
    var k := RightQuotesGo(s[i..]);
    j := i + k;
    assert s[i..][..k] == s[i..j] && s[i..][k..] == s[j..];
  }

  /** PostgreSQL quotes an element only where its characters call for it. */
  datatype Element = Bare(value: string) | InQuotes(value: string)

  function Shown(e: Element): string {
    if e.Bare? then e.value else "\"" + e.value + "\""
  }

  function AllShown(elements: seq<Element>): (parts: seq<string>)
    ensures |parts| == |elements| && forall i :: 0 <= i < |elements| ==> parts[i] == Shown(elements[i])
  {
    seq(|elements|, i requires 0 <= i < |elements| => Shown(elements[i]))
  }

  function Values(elements: seq<Element>): (values: seq<string>)
    ensures |values| == |elements| && forall i :: 0 <= i < |elements| ==> values[i] == elements[i].value
  {
    seq(|elements|, i requires 0 <= i < |elements| => elements[i].value)
  }

  function Sent(elements: seq<Element>): string {
    if elements == [] then "{}" else "{" + Join(AllShown(elements), ',') + "}"
  }

  lemma ShownTrims(e: Element)
    requires Plain(e.value)
    ensures TrimQuotes(Shown(e)) == e.value && ',' !in Shown(e)
  {
    if e.InQuotes? {
      QuotesComeOffIff(e.value);
    } else {
      assert e.value == "" || (e.value[0] != '"' && e.value[|e.value| - 1] != '"');
    }
  }

  /** Pieces without the separator are what splitting their join gives. */
  lemma {:induction false} JoinedSplits(parts: seq<string>, c: char)
    requires parts != [] && forall p :: p in parts ==> c !in p
    ensures Split(Join(parts, c), c) == parts
  {
    hide Split;
    SplitWithout(parts[0], c);
    if |parts| > 1 {
      assert forall p :: p in parts[1..] ==> p in parts;
      JoinedSplits(parts[1..], c);
      SplitConcat(parts[0], Join(parts[1..], c), c);
    }
  }

  lemma SentText(elements: seq<Element>)
    requires elements != []
    ensures Scanned(Sent(elements))
         == var raw := Join(AllShown(elements), ','); if raw == "" then [] else Trimmed(Split(raw, ','))
  {
    var raw := Join(AllShown(elements), ',');
    var text := "{" + raw + "}";
    assert text[|text| - 1..] == "}" && text[..|text| - 1] == "{" + raw;
    assert ("{" + raw)[1..] == raw;
  }

  lemma JoinIsEmptyIff(parts: seq<string>, c: char)
    requires parts != []
    ensures Join(parts, c) == "" <==> parts == [""]
  {
  }

  /**
   * Elements without comma and quote come back as they are, whether quoted or not. The one list that does not is
   * a single empty element sent bare, for its text is that of the empty list.
   */
  lemma SentComesBackIff(elements: seq<Element>)
    requires forall e :: e in elements ==> Plain(e.value)
    ensures Scanned(Sent(elements)) == Values(elements) <==> elements != [Bare("")]
  {
    if elements == [] {
      EmptyComesBack();
    } else {
      var parts := AllShown(elements);
      forall i | 0 <= i < |elements|
        ensures TrimQuotes(parts[i]) == elements[i].value && ',' !in parts[i]
      {
        ShownTrims(elements[i]);
      }
      SentText(elements);
      JoinIsEmptyIff(parts, ',');
      JoinedSplits(parts, ',');
      if parts == [""] {
        assert elements[0] == Bare("") && elements == [elements[0]];
      } else {
        assert elements != [Bare("")] by { assert |parts| == |elements|; }
        assert Trimmed(parts) == Values(elements);
      }
    }
  }
}
