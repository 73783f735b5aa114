/** What the lines of a tracefile mean, character by character, and how its records add up to the report. */
module LcovProperties {
  import opened Wrappers
  import opened Text
  import opened TextProperties
  import opened Lcov

  // ── numbers ────────────────────────────────────────────────────────────────

  function Decimal(n: nat): (s: string)
    ensures s != "" && AllDigits(s)
  {
    var digit := ['0' + (n % 10) as char];
    if n < 10 then digit else Decimal(n / 10) + digit
  }

  function Number(n: int): string {
    if n < 0 then "-" + Decimal(-n) else Decimal(n)
  }

  lemma {:induction false} DecimalReadsBack(n: nat)
    ensures Digits(Decimal(n)) == n
  {
    if n >= 10 {
      DecimalReadsBack(n / 10);
      assert Decimal(n)[..|Decimal(n)| - 1] == Decimal(n / 10);
    } else {
      assert Decimal(n)[..0] == "";
    }
  }

  lemma NegativeReads(digits: string)
    requires digits != "" && AllDigits(digits) && Digits(digits) <= MAX_INT + 1
    ensures Atoi("-" + digits) == Some(0 - Digits(digits))
  {
    hide Digits, AllDigits;
    assert ("-" + digits)[1..] == digits;
  }

  lemma PositiveReads(digits: string)
    requires digits != "" && AllDigits(digits) && Digits(digits) <= MAX_INT
    ensures Atoi(digits) == Some(Digits(digits))
  {
    assert '0' <= digits[0] <= '9';
    hide Digits, AllDigits;
  }

  /** Any 64-bit number is read back from its decimal notation. */
  lemma NumberReadsBack(n: int)
    requires -MAX_INT - 1 <= n <= MAX_INT
    ensures Atoi(Number(n)) == Some(n)
  {
    hide Atoi, Digits, AllDigits, Decimal;
    if n < 0 {
      DecimalReadsBack(-n);
      NegativeReads(Decimal(-n));
    } else {
      DecimalReadsBack(n);
      PositiveReads(Decimal(n));
    }
  }

  lemma NumberIsTight(n: int)
    ensures Number(n) != "" && Tight(Number(n)) && ',' !in Number(n)
  {
    var digits := Decimal(if n < 0 then -n else n);
    assert forall i :: 0 <= i < |digits| ==> '0' <= digits[i] <= '9';
    assert Number(n)[|Number(n)| - 1] == digits[|digits| - 1];
  }

  // ── lines ──────────────────────────────────────────────────────────────────

  lemma TrimmedLine(head: string, tail: string)
    requires head != "" && Tight(head)
    ensures TrimSpace(head + tail) == head + TrimRight(tail)
  {
    assert (head + tail)[0] == head[0];
    TrimRightStops(head, tail);
  }

  lemma DataLineTrimmed(number: string, hits: int, rest: string)
    ensures TrimSpace("DA:" + number + "," + Number(hits) + rest) == "DA:" + number + "," + Number(hits) + TrimRight(rest)
  {
    hide Number, TrimSpace;
    NumberIsTight(hits);
    var head := "DA:" + number + "," + Number(hits);
    assert head[0] == 'D' && head[|head| - 1] == Number(hits)[|Number(hits)| - 1];
    TrimmedLine(head, rest);
  }

  lemma IsDataLine(raw: string, rest: string)
    requires TrimSpace(raw) == "DA:" + rest
    ensures var line := TrimSpace(raw);
            !HasPrefix(line, "SF:") && line != "end_of_record" && HasPrefix(line, "DA:") && line[3..] == rest
  {
    hide TrimSpace;
    var line := TrimSpace(raw);
    assert line[0] == 'D' && "SF:"[0] == 'S' && "end_of_record"[0] == 'e' && line[..3] == "DA:";
  }

  lemma AfterSeparator(number: string, rest: string)
    ensures (number + ("," + rest))[|number| + 1..] == rest
  {
  }

  lemma FieldsOfLine(number: string, field: string, tail: string)
    requires ',' !in number && ',' !in field && (tail == "" || tail[0] == ',')
    ensures var fields := number + ("," + field + tail);
            && IndexOf(fields, ',') == |number| < |fields|
            && fields[|number| + 1..] == field + tail
            && (field + tail)[..IndexOf(field + tail, ',')] == field
  {
    hide IndexOf;
    assert "," + field + tail == "," + (field + tail);
    AfterSeparator(number, field + tail);
    IndexAt(number, ',', "," + field + tail);
    IndexAt(field, ',', tail);
  }

  /** The second field of a `DA` line ends at the next comma, or with the line. */
  lemma SecondField(raw: string, number: string, field: string, tail: string)
    requires TrimSpace(raw) == "DA:" + number + "," + field + tail
    requires ',' !in number && ',' !in field && (tail == "" || tail[0] == ',')
    ensures Classify(raw) == match Atoi(TrimSpace(field)) case Some(hits) => Hits(hits) case None => Other
  {
    hide Atoi, TrimSpace, HasPrefix, IndexOf;
    assert "DA:" + number + "," + field + tail == "DA:" + (number + ("," + field + tail));
    IsDataLine(raw, number + ("," + field + tail));
    FieldsOfLine(number, field, tail);
  }

  lemma NoSecondField(raw: string, number: string)
    requires TrimSpace(raw) == "DA:" + number && ',' !in number
    ensures Classify(raw) == Other
  {
    hide Atoi, TrimSpace, HasPrefix, IndexOf;
    IsDataLine(raw, number);
    assert number + "" == number;
    IndexAt(number, ',', "");
  }

  /** A `DA` line counts what stands in its second field, whatever its line number and with or without a checksum. */
  lemma HitLine(number: string, hits: int, rest: string)
    requires ',' !in number && (rest == "" || rest[0] == ',') && -MAX_INT - 1 <= hits <= MAX_INT
    ensures Classify("DA:" + number + "," + Number(hits) + rest) == Hits(hits)
  {
    hide Classify, Number, Atoi, TrimSpace;
    DataLineTrimmed(number, hits, rest);
    SeparatorStays(rest);
    NumberIsTight(hits);
    SecondField("DA:" + number + "," + Number(hits) + rest, number, Number(hits), TrimRight(rest));
    TightIsTrimmed(Number(hits));
    NumberReadsBack(hits);
  }

  lemma SeparatorStays(rest: string)
    requires rest == "" || rest[0] == ','
    ensures TrimRight(rest) == "" || TrimRight(rest)[0] == ','
  {
    if rest != "" {
      TrimRightStops(rest[..1], rest[1..]);
      assert rest == rest[..1] + rest[1..];
    }
  }

  /** An `SF` line names the file after the colon, without white space at the end of the line. */
  lemma FileLine(path: string)
    ensures Classify("SF:" + path) == SourceFile(TrimRight(path))
  {
    TrimmedLine("SF:", path);
    var line := "SF:" + TrimRight(path);
    assert line[..3] == "SF:" && line[3..] == TrimRight(path);
  }

  /** Only a line that says `end_of_record` and nothing else, but for white space around it, closes a record. */
  lemma RecordEndsIff(raw: string)
    ensures Classify(raw).EndOfRecord? <==> TrimSpace(raw) == "end_of_record"
  {
    assert "end_of_record"[0] == 'e' && "SF:"[0] == 'S';
  }

  /** Any other line says nothing. */
  lemma OtherLines(raw: string)
    requires var line := TrimSpace(raw); !HasPrefix(line, "SF:") && !HasPrefix(line, "DA:") && line != "end_of_record"
    ensures Classify(raw) == Other
  {
  }

  // ── records ────────────────────────────────────────────────────────────────

  function CountsOf(lines: seq<Line>): seq<int> {
    if lines == [] then []
    else CountsOf(lines[..|lines| - 1]) + if lines[|lines| - 1].Hits? then [lines[|lines| - 1].count] else []
  }

  /** The lines counted are the `DA` lines that were read, and those covered the ones hit at least once. */
  lemma {:induction false} TotalsCount(lines: seq<Line>)
    ensures Total(lines) == |CountsOf(lines)| && Covered(lines) == |Filter(n => n > 0, CountsOf(lines))|
  {
    if lines != [] {
      TotalsCount(lines[..|lines| - 1]);
      var before, last := CountsOf(lines[..|lines| - 1]), lines[|lines| - 1];
      if last.Hits? {
        FilterOneMore(n => n > 0, before, last.count);
      } else {
        assert before + [] == before;
      }
    }
  }

  /** A record's file is the last one it names. */
  lemma {:induction false} PathIsTheLast(lines: seq<Line>, n: nat)
    requires n < |lines| && lines[n].SourceFile? && forall m :: n < m < |lines| ==> !lines[m].SourceFile?
    ensures Path(lines) == lines[n].path
  {
    if n < |lines| - 1 {
      PathIsTheLast(lines[..|lines| - 1], n);
    }
  }

  lemma {:induction false} NamelessRecord(lines: seq<Line>)
    requires forall m :: 0 <= m < |lines| ==> !lines[m].SourceFile?
    ensures Path(lines) == ""
  {
    if lines != [] {
      NamelessRecord(lines[..|lines| - 1]);
    }
  }

  lemma {:induction false} OneRecord(lines: seq<Line>)
    requires forall m :: 0 <= m < |lines| ==> !lines[m].EndOfRecord?
    ensures Blocks(lines) == [lines]
  {
    if lines != [] {
      OneRecord(lines[..|lines| - 1]);
      SplitLast(lines);
    }
  }

  lemma {:induction false} BlocksAddUp(a: seq<Line>, b: seq<Line>)
    ensures Blocks(a + [EndOfRecord] + b) == Blocks(a) + Blocks(b)
  {
    var whole := a + [EndOfRecord] + b;
    if b == [] {
      assert whole == a + [EndOfRecord] && whole[..|whole| - 1] == a;
    } else {
      var front, last := b[..|b| - 1], b[|b| - 1];
      assert whole[..|whole| - 1] == a + [EndOfRecord] + front && whole[|whole| - 1] == last;
      BlocksAddUp(a, front);
      OneMoreLine(whole);
      OneMoreLine(b);
      LastBlockGrows(Blocks(a), Blocks(front), last);
    }
  }

  lemma OneMoreLine(lines: seq<Line>)
    requires lines != []
    ensures Blocks(lines) == WithLine(Blocks(lines[..|lines| - 1]), lines[|lines| - 1])
  {
  }

  function WithLine(blocks: seq<seq<Line>>, line: Line): seq<seq<Line>>
    requires blocks != []
  {
    if line.EndOfRecord? then blocks + [[]] else blocks[..|blocks| - 1] + [blocks[|blocks| - 1] + [line]]
  }

  lemma LastBlockGrows(a: seq<seq<Line>>, b: seq<seq<Line>>, line: Line)
    requires b != []
    ensures WithLine(a + b, line) == a + WithLine(b, line)
  {
    assert (a + b)[..|a + b| - 1] == a + b[..|b| - 1];
  }

  lemma {:induction false} EmittedAddsUp(a: seq<seq<Line>>, b: seq<seq<Line>>)
    ensures Emitted(a + b) == Emitted(a) + Emitted(b)
  {
    if b == [] {
      assert a + b == a;
    } else {
      assert (a + b)[..|a + b| - 1] == a + b[..|b| - 1];
      EmittedAddsUp(a, b[..|b| - 1]);
    }
  }

  /** What one record reports: its file with the lines it counts, or nothing when it names and counts none. */
  function ReportOf(record: seq<Line>): seq<FileCoverage> {
    if Path(record) == "" && CountsOf(record) == [] then []
    else [FileCoverage(Path(record), |Filter(n => n > 0, CountsOf(record))|, |CountsOf(record)|)]
  }

  lemma OneReport(record: seq<Line>)
    ensures Emitted([record]) == ReportOf(record)
  {
    TotalsCount(record);
    assert [record][..0] == [];
  }

  /** The report of a tracefile is its first record's, followed by the report of the rest. */
  lemma RecordsAddUp(record: seq<Line>, rest: seq<Line>)
    requires forall m :: 0 <= m < |record| ==> !record[m].EndOfRecord?
    ensures Emitted(Blocks(record + [EndOfRecord] + rest)) == ReportOf(record) + Emitted(Blocks(rest))
    ensures Emitted(Blocks(record)) == ReportOf(record)
  {
    hide Blocks, Emitted, ReportOf;
    OneRecord(record);
    BlocksAddUp(record, rest);
    EmittedAddsUp([record], Blocks(rest));
    OneReport(record);
  }
}
