/** The segments of a path, stated by where they stand in its text. */
module PathSegments {
  import opened Text
  import opened TextProperties

  /** `part` stands in the path as whole segments: an end of the path or a slash on either side. */
  predicate Whole(path: string, part: string, i: nat) {
    && StandsAt(path, part, i)
    && (i == 0 || path[i - 1] == '/')
    && (i + |part| == |path| || path[i + |part|] == '/')
  }

  predicate Run(segments: seq<string>, parts: seq<string>, i: nat) {
    i + |parts| <= |segments| && segments[i..i + |parts|] == parts
  }

  lemma FirstSegmentIff(path: string, part: string)
    requires '/' !in part
    ensures Whole(path, part, 0) <==> Split(path, '/')[0] == part
  {
    var k := IndexOf(path, '/');
    assert Split(path, '/')[0] == path[..k];
    if Whole(path, part, 0) {
      assert path == part + path[|part|..];
      IndexAt(part, '/', path[|part|..]);
    }
  }

  lemma {:induction false} StartsIff(path: string, parts: seq<string>)
    requires parts != [] && forall p :: p in parts ==> '/' !in p
    ensures Whole(path, Join(parts, '/'), 0) <==> Run(Split(path, '/'), parts, 0)
    decreases |parts|
  {
    var segments, text := Split(path, '/'), Join(parts, '/');
    FirstSegmentIff(path, parts[0]);
    if |parts| == 1 {
      assert segments[..1] == [segments[0]] && parts == [parts[0]];
    } else {
      var k, rest := IndexOf(path, '/'), Join(parts[1..], '/');
      assert forall p :: p in parts[1..] ==> p in parts;
      if Whole(path, text, 0) || Run(segments, parts, 0) {
        if Whole(path, text, 0) {
          assert path[..|parts[0]|] == text[..|parts[0]|] && path[|parts[0]|] == text[|parts[0]|] == '/';
          assert Whole(path, parts[0], 0);
        } else {
          assert segments[..|parts|][0] == parts[0];
        }
        assert k == |parts[0]| && k < |path| && segments[1..] == Split(path[k + 1..], '/');
        StartsIff(path[k + 1..], parts[1..]);
        TextTail(path, parts[0], rest);
        RunTail(segments, parts);
      }
    }
  }

  lemma TextTail(path: string, first: string, rest: string)
    requires |first| < |path| && path[..|first|] == first && path[|first|] == '/'
    ensures Whole(path, first + ['/'] + rest, 0) <==> Whole(path[|first| + 1..], rest, 0)
  {
    var tail, text := path[|first| + 1..], first + ['/'] + rest;
    if |text| <= |path| {
      assert path[..|text|] == first + ['/'] + tail[..|rest|];
      assert path[..|text|][|first| + 1..] == tail[..|rest|] && text[|first| + 1..] == rest;
    }
  }

  lemma RunTail(segments: seq<string>, parts: seq<string>)
    requires segments != [] && |parts| > 1 && segments[0] == parts[0]
    ensures Run(segments, parts, 0) <==> Run(segments[1..], parts[1..], 0)
  {
    if |parts| <= |segments| {
      assert segments[..|parts|] == [segments[0]] + segments[1..][..|parts| - 1];
      assert parts == [parts[0]] + parts[1..];
    }
  }

  lemma ShiftedIff(path: string, text: string, start: nat, i: nat)
    requires 0 < start <= |path| && path[start - 1] == '/'
    ensures Whole(path[start..], text, i) <==> Whole(path, text, start + i)
  {
    var tail := path[start..];
    if start + i + |text| <= |path| {
      assert tail[i..i + |text|] == path[start + i..start + i + |text|];
    }
  }

  ghost predicate Stands(path: string, text: string) {
    exists i: nat :: Whole(path, text, i)
  }

  lemma RunShifts(segments: seq<string>, parts: seq<string>, j: nat)
    requires segments != []
    ensures Run(segments, parts, j + 1) <==> Run(segments[1..], parts, j)
  {
    if j + 1 + |parts| <= |segments| {
      assert segments[1..][j..j + |parts|] == segments[j + 1..j + 1 + |parts|];
    }
  }

  ghost predicate RunsSomewhere(segments: seq<string>, parts: seq<string>) {
    exists j: nat :: Run(segments, parts, j)
  }

  lemma RunsStep(segments: seq<string>, parts: seq<string>)
    requires segments != []
    ensures RunsSomewhere(segments, parts) <==> Run(segments, parts, 0) || RunsSomewhere(segments[1..], parts)
  {
    hide Run;
    if j: nat :| Run(segments, parts, j) && j > 0 {
      RunShifts(segments, parts, j - 1);
    }
    if j: nat :| Run(segments[1..], parts, j) {
      RunShifts(segments, parts, j);
    }
  }

  ghost predicate Follow(path: string, parts: seq<string>) {
    RunsSomewhere(Split(path, '/'), parts)
  }

  lemma SplitTail(path: string)
    ensures var k := IndexOf(path, '/');
            Split(path, '/')[1..] == if k < |path| then Split(path[k + 1..], '/') else []
  {
    hide IndexOf;
    var k := IndexOf(path, '/');
    if k < |path| {
      assert Split(path, '/') == [path[..k]] + Split(path[k + 1..], '/');
    }
  }

  lemma FollowStep(path: string, parts: seq<string>)
    requires parts != []
    ensures var k, first := IndexOf(path, '/'), Run(Split(path, '/'), parts, 0);
            Follow(path, parts) <==> first || (k < |path| && Follow(path[k + 1..], parts))
  {
    hide Run, RunsSomewhere, Split, IndexOf;
    RunsStep(Split(path, '/'), parts);
    SplitTail(path);
    NoRun(parts);
  }

  lemma NoRun(parts: seq<string>)
    requires parts != []
    ensures !RunsSomewhere([], parts)
  {
  }

  lemma FirstSlash(path: string, text: string, i: nat)
    requires Whole(path, text, i) && i > 0
    ensures IndexOf(path, '/') < i
  {
    var k := IndexOf(path, '/');
    assert forall m :: 0 <= m < k ==> path[m] == path[..k][m];
  }

  lemma StandsStep(path: string, text: string)
    ensures var k := IndexOf(path, '/');
            Stands(path, text) <==> Whole(path, text, 0) || (k < |path| && Stands(path[k + 1..], text))
  {
    hide Whole, IndexOf;
    var k := IndexOf(path, '/');
    if i: nat :| Whole(path, text, i) && i > 0 {
      FirstSlash(path, text, i);
      InBounds(path, text, i);
      ShiftedIff(path, text, k + 1, i - k - 1);
      assert Whole(path[k + 1..], text, i - k - 1);
    }
    if k < |path| && Stands(path[k + 1..], text) {
      var i: nat :| Whole(path[k + 1..], text, i);
      ShiftedIff(path, text, k + 1, i);
      assert Whole(path, text, k + 1 + i);
    }
  }

  lemma InBounds(path: string, text: string, i: nat)
    requires Whole(path, text, i)
    ensures i <= |path|
  {
  }

  /** The parts follow one another among the segments of a path exactly where their text stands as whole segments. */
  lemma {:induction false} SegmentsStandIff(path: string, parts: seq<string>)
    requires parts != [] && forall p :: p in parts ==> '/' !in p
    ensures Follow(path, parts) <==> Stands(path, Join(parts, '/'))
    decreases |path|
  {
    hide Follow, Stands, Whole, Run, Join, Split;
    StartsIff(path, parts);
    FollowStep(path, parts);
    StandsStep(path, Join(parts, '/'));
    if IndexOf(path, '/') < |path| {
      SegmentsStandIff(path[IndexOf(path, '/') + 1..], parts);
    }
  }

  /** The last segment is what follows the last slash. */
  lemma {:induction false} LastSegment(path: string) returns (i: nat)
    ensures i <= |path| && Split(path, '/')[|Split(path, '/')| - 1] == path[i..]
    ensures '/' !in path[i..] && (i == 0 || path[i - 1] == '/')
    decreases |path|
  {
    var k := IndexOf(path, '/');
    if k < |path| {
      i := LastSegment(path[k + 1..]);
      assert path[k + 1..][i..] == path[k + 1 + i..];
      assert i > 0 ==> path[k + 1..][i - 1] == path[k + i];
      i := k + 1 + i;
    } else {
      i := 0;
    }
  }
}
