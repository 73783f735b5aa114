/** Line coverage from an LCOV tracefile: `SF:` names a file, `DA:` counts a line, `end_of_record` closes a block. */
module Lcov {
  import opened Wrappers
  import opened Text

  datatype FileCoverage = FileCoverage(path: string, covered: nat, total: nat)

  datatype Report = Report(covered: nat, total: nat, files: seq<FileCoverage>)

  /** What one line of the tracefile says. */
  datatype Line = SourceFile(path: string) | EndOfRecord | Hits(count: int) | Other

  const MAX_INT := 0x7fff_ffff_ffff_ffff

  predicate AllDigits(s: string) {
    forall i :: 0 <= i < |s| ==> '0' <= s[i] <= '9'
  }

  function Digits(s: string): nat
    requires AllDigits(s)
  {
    if s == "" then 0 else 10 * Digits(s[..|s| - 1]) + (s[|s| - 1] - '0') as nat
  }

  /** A decimal number that fits 64 bits, with an optional sign. */
  function Atoi(s: string): (r: Option<int>)
    ensures r.Some? ==> -MAX_INT - 1 <= r.value <= MAX_INT
  {
    var negative := s != "" && s[0] == '-';
    var digits := if s != "" && (s[0] == '-' || s[0] == '+') then s[1..] else s;
    if digits == "" || !AllDigits(digits) then None
    else
      var n: int := if negative then 0 - Digits(digits) else Digits(digits);
      if -MAX_INT - 1 <= n <= MAX_INT then Some(n) else None
  }

  function Classify(raw: string): Line {
    var line := TrimSpace(raw);
    if HasPrefix(line, "SF:") then SourceFile(line[3..])
    else if line == "end_of_record" then EndOfRecord
    else if HasPrefix(line, "DA:") then
      var comma := IndexOf(line[3..], ',');
      if comma == |line[3..]| then Other
      else
        var rest := line[3..][comma + 1..];
        match Atoi(TrimSpace(rest[..IndexOf(rest, ',')]))
        case Some(hits) => Hits(hits)
        case None => Other
    else Other
  }

  function Lines(raw: seq<string>): (r: seq<Line>)
    ensures |r| == |raw| && forall i :: 0 <= i < |raw| ==> r[i] == Classify(raw[i])
  {
    seq(|raw|, i requires 0 <= i < |raw| => Classify(raw[i]))
  }

  /** Lines that count, and lines that count as covered. */
  function Total(lines: seq<Line>): (n: nat) {
    if lines == [] then 0 else Total(lines[..|lines| - 1]) + if lines[|lines| - 1].Hits? then 1 else 0
  }

  function Covered(lines: seq<Line>): (n: nat)
    ensures n <= Total(lines)
  {
    if lines == [] then 0
    else Covered(lines[..|lines| - 1]) + if lines[|lines| - 1].Hits? && lines[|lines| - 1].count > 0 then 1 else 0
  }

  /** The last file named, or nothing. */
  function Path(lines: seq<Line>): string {
    if lines == [] then ""
    else if lines[|lines| - 1].SourceFile? then lines[|lines| - 1].path
    else Path(lines[..|lines| - 1])
  }

  /** The tracefile cut at every `end_of_record`. */
  function Blocks(lines: seq<Line>): (blocks: seq<seq<Line>>)
    ensures blocks != []
  {
    if lines == [] then [[]]
    else
      var before := Blocks(lines[..|lines| - 1]);
      if lines[|lines| - 1].EndOfRecord? then before + [[]]
      else before[..|before| - 1] + [before[|before| - 1] + [lines[|lines| - 1]]]
  }

  /** What a block reports: nothing unless it names a file or counts a line. */
  function Emitted(blocks: seq<seq<Line>>): seq<FileCoverage> {
    if blocks == [] then []
    else
      var last := blocks[|blocks| - 1];
      var before := Emitted(blocks[..|blocks| - 1]);
      if Path(last) == "" && Total(last) == 0 then before else before + [FileCoverage(Path(last), Covered(last), Total(last))]
  }

  method FlushFile(files: seq<FileCoverage>, currentFile: string, fileCovered: nat, fileTotal: nat)
    returns (flushed: seq<FileCoverage>)
    ensures flushed == if currentFile == "" && fileTotal == 0 then files else files + [FileCoverage(currentFile, fileCovered, fileTotal)]
  {
    if currentFile == "" && fileTotal == 0 {
      return files;
    }
    return files + [FileCoverage(currentFile, fileCovered, fileTotal)];
  }

  /** Where the reader stands after `lines`: the closed blocks are emitted, the open one is being counted. */
  ghost predicate Reading(lines: seq<Line>, files: seq<FileCoverage>, currentFile: string, fileCovered: nat,
                          fileTotal: nat)
  {
    var blocks := Blocks(lines);
    var open := blocks[|blocks| - 1];
    files == Emitted(blocks[..|blocks| - 1]) && currentFile == Path(open) && fileCovered == Covered(open) && fileTotal == Total(open)
  }

  lemma LineRead(lines: seq<Line>, line: Line, files: seq<FileCoverage>, currentFile: string, fileCovered: nat,
                 fileTotal: nat)
    requires Reading(lines, files, currentFile, fileCovered, fileTotal) && !line.EndOfRecord?
    ensures Total(lines + [line]) == Total(lines) + if line.Hits? then 1 else 0
    ensures Covered(lines + [line]) == Covered(lines) + if line.Hits? && line.count > 0 then 1 else 0
    ensures Reading(lines + [line], files, if line.SourceFile? then line.path else currentFile,
                    fileCovered + if line.Hits? && line.count > 0 then 1 else 0, fileTotal + if line.Hits? then 1 else 0)
  {
    assert (lines + [line])[..|lines|] == lines;
    OpenBlockGrows(Blocks(lines), line);
  }

  lemma BlockClosed(lines: seq<Line>, files: seq<FileCoverage>, currentFile: string, fileCovered: nat, fileTotal: nat)
    requires Reading(lines, files, currentFile, fileCovered, fileTotal)
    ensures Emitted(Blocks(lines))
            == if currentFile == "" && fileTotal == 0 then files else files + [FileCoverage(currentFile, fileCovered, fileTotal)]
    ensures Total(lines + [EndOfRecord]) == Total(lines) && Covered(lines + [EndOfRecord]) == Covered(lines)
    ensures Reading(lines + [EndOfRecord], Emitted(Blocks(lines)), "", 0, 0)
  {
    assert (lines + [EndOfRecord])[..|lines|] == lines;
    assert (Blocks(lines) + [[]])[..|Blocks(lines)|] == Blocks(lines);
  }

  /** What a line adds to the totals of its file and of the report. */
  method CountLine(line: Line) returns (counts: nat, covers: nat)
    ensures counts == (if line.Hits? then 1 else 0) && covers == if line.Hits? && line.count > 0 then 1 else 0
  {
    counts, covers := 0, 0;
    if line.Hits? {
      counts := 1;
      if line.count > 0 {
        covers := 1;
      }
    }
  }

  lemma NothingRead()
    ensures Reading([], [], "", 0, 0) && Covered([]) == 0 && Total([]) == 0
  {
  }

  /** `broken` is a reader that fails after the lines it gave. */
  method ParseLCOV(raw: seq<string>, broken: bool) returns (r: Result<Report, string>)
    ensures broken <==> r.Failure?
    ensures !broken ==> r == Success(Report(Covered(Lines(raw)), Total(Lines(raw)), Emitted(Blocks(Lines(raw)))))
  {
    hide Classify, Reading;
    var covered, total, files, currentFile, fileCovered, fileTotal := 0, 0, [], "", 0, 0;
    NothingRead();
    ghost var seen: seq<Line> := [];
    var n := 0;
    while n < |raw|
      invariant n <= |raw| && seen == Lines(raw)[..n]
      invariant covered == Covered(seen) && total == Total(seen)
      invariant Reading(seen, files, currentFile, fileCovered, fileTotal)
    {
      var line := Classify(raw[n]);
      PrefixGrows(Lines(raw), n);
      if line.EndOfRecord? {
        BlockClosed(seen, files, currentFile, fileCovered, fileTotal);
        files := FlushFile(files, currentFile, fileCovered, fileTotal);
        currentFile, fileCovered, fileTotal := "", 0, 0;
      } else {
        LineRead(seen, line, files, currentFile, fileCovered, fileTotal);
        if line.SourceFile? {
          currentFile := line.path;
        }
        var counts, covers := CountLine(line);
        fileTotal, total, fileCovered, covered := fileTotal + counts, total + counts, fileCovered + covers, covered + covers;
      }
      n, seen := n + 1, seen + [line];
    }
    WholePrefix(Lines(raw));
    BlockClosed(seen, files, currentFile, fileCovered, fileTotal);
    if broken {
      return Failure("read lcov");
    }
    if currentFile != "" || fileTotal > 0 {
      files := FlushFile(files, currentFile, fileCovered, fileTotal);
    }
    return Success(Report(covered, total, files));
  }

  lemma OpenBlockGrows(blocks: seq<seq<Line>>, line: Line)
    requires blocks != []
    ensures var open := blocks[|blocks| - 1];
            var grown := blocks[..|blocks| - 1] + [open + [line]];
            && grown[..|grown| - 1] == blocks[..|blocks| - 1] && grown[|grown| - 1] == open + [line]
            && (open + [line])[..|open|] == open
  {
  }

  function SumTotal(files: seq<FileCoverage>): nat {
    if files == [] then 0 else SumTotal(files[..|files| - 1]) + files[|files| - 1].total
  }

  function SumCovered(files: seq<FileCoverage>): nat {
    if files == [] then 0 else SumCovered(files[..|files| - 1]) + files[|files| - 1].covered
  }

  /** The open block takes every line but the one that closes it. */
  lemma {:induction false} SumsAgree(lines: seq<Line>)
    ensures var blocks := Blocks(lines);
            var closed, open := Emitted(blocks[..|blocks| - 1]), blocks[|blocks| - 1];
            && SumTotal(closed) + Total(open) == Total(lines)
            && SumCovered(closed) + Covered(open) == Covered(lines)
  {
    if lines != [] {
      var front, line := lines[..|lines| - 1], lines[|lines| - 1];
      var blocks := Blocks(front);
      SumsAgree(front);
      if line.EndOfRecord? {
        assert (blocks + [[]])[..|blocks|] == blocks;
        EmittingAdds(blocks);
      } else {
        OpenBlockGrows(blocks, line);
      }
    }
  }

  lemma EmittingAdds(blocks: seq<seq<Line>>)
    requires blocks != []
    ensures var open := blocks[|blocks| - 1];
            var before := Emitted(blocks[..|blocks| - 1]);
            && SumTotal(Emitted(blocks)) == SumTotal(before) + Total(open)
            && SumCovered(Emitted(blocks)) == SumCovered(before) + Covered(open)
  {
    var open, before := blocks[|blocks| - 1], Emitted(blocks[..|blocks| - 1]);
    SumsGrow(before, FileCoverage(Path(open), Covered(open), Total(open)));
  }

  lemma SumsGrow(files: seq<FileCoverage>, file: FileCoverage)
    ensures SumTotal(files + [file]) == SumTotal(files) + file.total
    ensures SumCovered(files + [file]) == SumCovered(files) + file.covered
  {
    assert (files + [file])[..|files|] == files;
  }

  lemma {:induction false} NoFileOverflows(blocks: seq<seq<Line>>)
    ensures forall f :: f in Emitted(blocks) ==> f.covered <= f.total && (f.path != "" || f.total > 0)
  {
    if blocks != [] {
      NoFileOverflows(blocks[..|blocks| - 1]);
    }
  }

  /**
   * Whatever order the lines come in, and however many `SF:` and `end_of_record` are missing or repeated, the
   * totals are the sums over the files and the count of the lines that count, and no file covers more than it has.
   */
  lemma Conservation(raw: seq<string>)
    ensures var files := Emitted(Blocks(Lines(raw)));
            && SumTotal(files) == Total(Lines(raw)) && SumCovered(files) == Covered(Lines(raw))
            && Covered(Lines(raw)) <= Total(Lines(raw))
            && forall f :: f in files ==> f.covered <= f.total && (f.path != "" || f.total > 0)
  {
    SumsAgree(Lines(raw));
    EmittingAdds(Blocks(Lines(raw)));
    NoFileOverflows(Blocks(Lines(raw)));
  }
}
