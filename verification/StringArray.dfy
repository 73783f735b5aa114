/** A list of strings as a PostgreSQL text array, printed and read back. */
module StringArray {
  import opened Wrappers
  import opened Text

  /** Every double quote behind a backslash. */
  function Escape(s: string): (r: string)
    ensures |s| <= |r| && ('"' in s ==> |s| < |r|)
    ensures '"' !in s ==> r == s
    ensures ',' in r <==> ',' in s
    ensures r != "" ==> r[0] != '"'
  {
    if s == "" then ""
    else
      var last := s[|s| - 1];
      Escape(s[..|s| - 1]) + if last == '"' then "\\\"" else [last]
  }

  function Quoted(s: string): string {
    "\"" + Escape(s) + "\""
  }

  function Joined(list: seq<string>): (r: string)
    requires list != []
    ensures r != ""
  {
    if |list| == 1 then Quoted(list[0]) else Quoted(list[0]) + "," + Joined(list[1..])
  }

  function Printed(list: seq<string>): string {
    if list == [] then "{}" else "{" + Joined(list) + "}"
  }

  function TrimSuffix(s: string, suffix: string): string {
    if HasSuffix(s, suffix) then s[..|s| - |suffix|] else s
  }

  function TrimPrefix(s: string, prefix: string): string {
    if HasPrefix(s, prefix) then s[|prefix|..] else s
  }

  function TrimLeftQuotes(s: string): string {
    if s != "" && s[0] == '"' then TrimLeftQuotes(s[1..]) else s
  }

  function TrimRightQuotes(s: string): string {
    if s != "" && s[|s| - 1] == '"' then TrimRightQuotes(s[..|s| - 1]) else s
  }

  function TrimQuotes(s: string): string {
    TrimRightQuotes(TrimLeftQuotes(s))
  }

  function Trimmed(parts: seq<string>): (r: seq<string>)
    ensures |r| == |parts| && forall i :: 0 <= i < |parts| ==> r[i] == TrimQuotes(parts[i])
  {
    seq(|parts|, i requires 0 <= i < |parts| => TrimQuotes(parts[i]))
  }

  function Scanned(text: string): seq<string> {
    var raw := TrimPrefix(TrimSuffix(text, "}"), "{");
    if raw == "" then [] else Trimmed(Split(raw, ','))
  }

  lemma JoinedGrows(list: seq<string>, s: string)
    requires list != []
    ensures Joined(list + [s]) == Joined(list) + "," + Quoted(s)
  {
    if |list| == 1 {
      assert (list + [s])[1..] == [s];
    } else {
      JoinedGrows(list[1..], s);
      assert (list + [s])[1..] == list[1..] + [s];
    }
  }

  method Value(list: seq<string>) returns (text: string)
    ensures text == Printed(list)
  {
    if |list| == 0 {
      return "{}";
    }
    text := "{";
    var n := 0;
    while n < |list|
      invariant n <= |list|
      invariant text == if n == 0 then "{" else "{" + Joined(list[..n])
    {
      if n > 0 {
        JoinedGrows(list[..n], list[n]);
        text := text + ",";
      }
      PrefixGrows(list, n);
      text := text + ("\"" + Escape(list[n]) + "\"");
      n := n + 1;
    }
    WholePrefix(list);
    text := text + "}";
  }

  /** The source is NULL, text, or of a type that is refused. */
  datatype Source = Null | Text(raw: string) | Unsupported

  method Scan(source: Source) returns (r: Result<seq<string>, string>)
    ensures source.Unsupported? <==> r.Failure?
    ensures source.Null? ==> r == Success([])
    ensures source.Text? ==> r == Success(Scanned(source.raw))
  {
    match source
    case Unsupported => return Failure("unsupported source type");
    case Null => return Success([]);
    case Text(text) =>
      var raw := TrimPrefix(TrimSuffix(text, "}"), "{");
      if raw == "" {
        return Success([]);
      }
      var parts, list, n := Split(raw, ','), [], 0;
      while n < |parts|
        invariant n <= |parts| && |list| == n
        invariant forall i :: 0 <= i < n ==> list[i] == TrimQuotes(parts[i])
      {
        list := list + [TrimQuotes(parts[n])];
        n := n + 1;
      }
      assert list == Trimmed(parts);
      return Success(list);
  }

  // ── the round trip ─────────────────────────────────────────────────────────

  lemma NotBefore(s: string, c: char, i: nat)
    requires i <= |s| && c !in s[..i]
    ensures forall k :: 0 <= k < i ==> s[k] != c
  {
    assert forall k :: 0 <= k < i ==> s[k] == s[..i][k];
  }

  lemma FirstOccurrence(s: string, c: char, i: nat)
    requires i < |s| && s[i] == c && c !in s[..i]
    ensures IndexOf(s, c) == i
  {
    NotBefore(s, c, i);
    NotBefore(s, c, IndexOf(s, c));
  }

  lemma SplitWithout(s: string, c: char)
    ensures c !in s ==> Split(s, c) == [s]
    ensures c in s ==> |Split(s, c)| > 1
  {
    NotBefore(s, c, IndexOf(s, c));
  }

  lemma SplitAt(s: string, c: char, i: nat)
    requires i < |s| && s[i] == c && c !in s[..i]
    ensures Split(s, c) == [s[..i]] + Split(s[i + 1..], c)
  {
    FirstOccurrence(s, c, i);
  }

  /** Splitting at a separator splits both sides of any occurrence of it. */
  lemma {:induction false} SplitConcat(a: string, b: string, c: char)
    ensures Split(a + [c] + b, c) == Split(a, c) + Split(b, c)
    decreases |a|
  {
    var i := IndexOf(a, c);
    var whole := a + [c] + b;
    if i == |a| {
      assert whole[i + 1..] == b && whole[..i] == a;
      SplitAt(whole, c, i);
    } else {
      assert whole[i + 1..] == a[i + 1..] + [c] + b && whole[..i] == a[..i];
      SplitAt(whole, c, i);
      SplitConcat(a[i + 1..], b, c);
      ConcatAssociates([a[..i]], Split(a[i + 1..], c), Split(b, c));
    }
  }

  predicate HasComma(list: seq<string>) {
    exists s :: s in list && ',' in s
  }

  /** The pieces of the text are the quoted elements, unless some element has a comma and there are too many. */
  lemma {:induction false} PiecesOf(list: seq<string>)
    requires list != []
    ensures |Split(Joined(list), ',')| >= |list|
    ensures |Split(Joined(list), ',')| == |list| <==> !HasComma(list)
    ensures !HasComma(list) ==> forall i :: 0 <= i < |list| ==> Split(Joined(list), ',')[i] == Quoted(list[i])
  {
    SplitWithout(Quoted(list[0]), ',');
    assert ',' in Quoted(list[0]) <==> ',' in list[0];
    if |list| > 1 {
      SplitConcat(Quoted(list[0]), Joined(list[1..]), ',');
      PiecesOf(list[1..]);
      assert HasComma(list) <==> ',' in list[0] || HasComma(list[1..]);
    } else {
      assert HasComma(list) <==> ',' in list[0] by { assert list == [list[0]]; }
    }
  }

  /** Stripping the quotes of one printed element gives it back exactly when it has no quote. */
  lemma QuotesComeOffIff(s: string)
    ensures TrimQuotes(Quoted(s)) == s <==> '"' !in s
  {
    var escaped := Escape(s);
    assert Quoted(s)[1..] == escaped + "\"";
    if s == "" {
      assert TrimLeftQuotes("\"\"") == "";
      assert Quoted(s) == "\"\"";
    } else {
      assert TrimLeftQuotes(Quoted(s)) == escaped + "\"";
      assert (escaped + "\"")[..|escaped|] == escaped;
      assert TrimQuotes(Quoted(s)) == TrimRightQuotes(escaped);
      if s[|s| - 1] == '"' {
        assert escaped[..|escaped| - 1] == Escape(s[..|s| - 1]) + "\\";
        assert TrimRightQuotes(escaped) == Escape(s[..|s| - 1]) + "\\";
      }
    }
  }

  lemma BracesComeOff(list: seq<string>)
    requires list != []
    ensures Scanned(Printed(list)) == Trimmed(Split(Joined(list), ','))
  {
    var text := Printed(list);
    assert text[|text| - 1..] == "}" && text[..|text| - 1] == "{" + Joined(list);
    assert ("{" + Joined(list))[1..] == Joined(list);
  }

  /** Without commas the elements come back one by one. */
  lemma ElementsComeBackIff(list: seq<string>)
    requires list != [] && !HasComma(list)
    ensures Scanned(Printed(list)) == list <==> forall s :: s in list ==> '"' !in s
  {
    BracesComeOff(list);
    PiecesOf(list);
    var back := Scanned(Printed(list));
    assert forall i :: 0 <= i < |list| ==> (back[i] == list[i] <==> '"' !in list[i]) by {
      forall i | 0 <= i < |list|
        ensures back[i] == list[i] <==> '"' !in list[i]
      {
        QuotesComeOffIff(list[i]);
      }
    }
    if forall s :: s in list ==> '"' !in s {
      assert forall i :: 0 <= i < |list| ==> list[i] in list;
    } else {
      var s :| s in list && '"' in s;
      var k :| 0 <= k < |list| && list[k] == s;
      assert back[k] != list[k];
    }
  }

  lemma EmptyComesBack()
    ensures Scanned(Printed([])) == []
  {
    assert "{}"[..1] == "{";
  }

  /** A comma makes more elements than were printed. */
  lemma CommaMakesMore(list: seq<string>)
    requires HasComma(list)
    ensures |Scanned(Printed(list))| > |list|
  {
    BracesComeOff(list);
    PiecesOf(list);
  }

  predicate Plain(s: string) {
    ',' !in s && '"' !in s
  }

  /** Reading back what was printed gives the list itself exactly when no element has a comma or a double quote. */
  lemma RoundTripIff(list: seq<string>)
    ensures Scanned(Printed(list)) == list <==> forall s :: s in list ==> Plain(s)
  {
    if list == [] {
      EmptyComesBack();
    } else if HasComma(list) {
      CommaMakesMore(list);
      var s :| s in list && ',' in s;
      assert !Plain(s);
    } else {
      ElementsComeBackIff(list);
    }
  }
}
