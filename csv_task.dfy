/** NormalizerImpl.CSVTask: reads the header and the rows of a CSV file,
    collects the values of one column, and writes every line back with one
    more column holding the normalised value. The input file is the list of
    its lines, which the reader hands out one at a time; the output file is
    the text handed to the writer. */
module CsvTasks {
  import opened Exceptions
  import opened Decimals
  import opened DecimalText
  import opened Normalizer
  import opened Csv
  import opened Scoring
  import Utils = BigDecimalUtils

  // ---------------------------------------------------------------- results

  /** The value the min-max loop computes for x: normalised with the
      summary's min and max, which are already rounded to two places, then
      rescaled. Both accessors throw on an empty list, and equal rounded
      bounds divide by zero. */
  function MinMaxResult(x: real, summary: ScoringSummary): (r: Result<real>)
    ensures r.Thrown? <==> summary.numbers == [] || summary.Min().value == summary.Max().value
    ensures r.Thrown? ==> r.exception == (if summary.numbers == [] then NoSuchElementException else ArithmeticException)
    ensures r.Ok? ==> HasScale2(r.value)
    ensures r.Ok? ==> IsHalfEvenRounding(Unscaled2(r.value),
                        (x - summary.Min().value) / (summary.Max().value - summary.Min().value) * 100.0)
  {
    var mn :- summary.Min();
    var mx := summary.Max().value;
    var q :- NormalizeMinMax(x, mn, mx);
    SetScale2Idempotent(q);
    Ok(ConvertToRequiredScale(q))
  }

  /** The value the z-score loop computes for x: normalised with the
      summary's integer mean and two-place standard deviation, then
      rescaled. The mean throws on an empty list, the deviation throws when
      the variance is beyond the double range, and a deviation that rounds to
      zero divides by zero. */
  function ZScoreResult(x: real, summary: ScoringSummary, fpSqrt: real -> real): (r: Result<real>)
    ensures r.Thrown? <==> summary.numbers == [] || summary.StandardDeviation(fpSqrt).Thrown? ||
                           summary.StandardDeviation(fpSqrt).value == 0.0
    ensures r.Thrown? && summary.numbers != [] && summary.StandardDeviation(fpSqrt).Thrown? ==>
              r.exception == NumberFormatException
    ensures r.Thrown? && (summary.numbers == [] || summary.StandardDeviation(fpSqrt).Ok?) ==>
              r.exception == ArithmeticException
    ensures r.Ok? ==> HasScale2(r.value)
    ensures r.Ok? ==> IsHalfEvenRounding(Unscaled2(r.value),
                        (x - summary.Mean().value) / summary.StandardDeviation(fpSqrt).value * 100.0)
  {
    var mean :- summary.Mean();
    var sd :- summary.StandardDeviation(fpSqrt);
    var q :- NormalizeZScore(x, mean, sd);
    SetScale2Idempotent(q);
    Ok(ConvertToRequiredScale(q))
  }

  /** The two normalisation formulas the task can apply; the z-score one
      depends on the square root behind the standard deviation. */
  datatype Formula = MinMax | ZScore(fpSqrt: real -> real)

  /** Whether the formula can be applied with this summary: min-max needs
      distinct rounded bounds, z-score a deviation that is defined and does
      not round to zero. */
  predicate Applicable(formula: Formula, summary: ScoringSummary) {
    summary.numbers != [] &&
    match formula
    case MinMax => summary.Min().value != summary.Max().value
    case ZScore(fpSqrt) => summary.StandardDeviation(fpSqrt).Ok? && summary.StandardDeviation(fpSqrt).value != 0.0
  }

  /** The exception the loop throws on its first row when the formula does
      not apply: TreeSet.first() on no values, a standard deviation beyond
      the double range, or a division by zero. */
  function FormulaFailure(formula: Formula, summary: ScoringSummary): Exception {
    match formula
    case MinMax => if summary.numbers == [] then NoSuchElementException else ArithmeticException
    case ZScore(fpSqrt) =>
      if summary.numbers != [] && summary.StandardDeviation(fpSqrt).Thrown? then NumberFormatException
      else ArithmeticException
  }

  /** The value the task's loop computes for x under the formula; whether it
      fails does not depend on x. */
  function Normalized(formula: Formula, x: real, summary: ScoringSummary): (r: Result<real>)
    ensures r.Ok? <==> Applicable(formula, summary)
    ensures r.Thrown? ==> r.exception == FormulaFailure(formula, summary)
    ensures r.Ok? ==> HasScale2(r.value)
  {
    match formula
    case MinMax => MinMaxResult(x, summary)
    case ZScore(fpSqrt) => ZScoreResult(x, summary, fpSqrt)
  }

  // ---------------------------------------------------------------- lines

  /** The values item gives the lines, in order, or the exception of the
      first line it throws on. */
  function Collect(lines: seq<string>, item: string -> Result<real>): (r: Result<seq<real>>)
    ensures r.Ok? ==> |r.value| == |lines|
  {
    if lines == [] then Ok([])
    else
      var init :- Collect(lines[..|lines| - 1], item);
      var x :- item(lines[|lines| - 1]);
      Ok(init + [x])
  }

  /** The values of column colIndex, one per line, or the exception of the
      first line whose field is missing or not a decimal. */
  function ColumnValues(lines: seq<string>, colIndex: int): (r: Result<seq<real>>)
    ensures r.Ok? ==> |r.value| == |lines|
    ensures r.Ok? ==> HasColumn(lines, colIndex)
  {
    var r := Collect(lines, line => FieldValue(line, colIndex));
    if r.Ok? then RowsHaveColumn(lines, colIndex, r.value); r else r
  }

  /** Every line has a column colIndex. */
  predicate HasColumn(lines: seq<string>, colIndex: int) {
    forall j :: 0 <= j < |lines| ==> 0 <= colIndex < |Split(lines[j])|
  }

  /** A data line with the new column inserted, followed by the line
      separator unless it is the last line. */
  function NormalizedLine(line: string, colIndex: int, cell: string, last: bool, lineSeparator: string): string
    requires 0 <= colIndex < |Split(line)|
  {
    AppendToTheNextOfSpecifiedCol(line, colIndex, cell).value + (if last then "" else lineSeparator)
  }

  /** The lines one after the other. */
  function Concat(lines: seq<string>): string {
    if lines == [] then "" else Concat(lines[..|lines| - 1]) + lines[|lines| - 1]
  }

  /** When every line gives a value, value j is the one item gives line j. */
  lemma {:induction false} CollectPresent(lines: seq<string>, item: string -> Result<real>, j: int)
    requires Collect(lines, item).Ok? && 0 <= j < |lines|
    ensures item(lines[j]) == Ok(Collect(lines, item).value[j])
  {
    var n := |lines|;
    if j < n - 1 {
      CollectPresent(lines[..n - 1], item, j);
    }
  }

  /** One more line with a value extends the values. */
  lemma CollectNext(lines: seq<string>, k: nat, item: string -> Result<real>, values: seq<real>)
    requires k < |lines| && Collect(lines[..k], item) == Ok(values)
    requires item(lines[k]).Ok?
    ensures Collect(lines[..k + 1], item) == Ok(values + [item(lines[k]).value])
  {
    assert lines[..k + 1][..k] == lines[..k];
  }

  /** The first line item throws on decides the exception, whatever follows
      it. */
  lemma {:induction false} CollectStop(lines: seq<string>, k: nat, item: string -> Result<real>)
    requires k < |lines| && Collect(lines[..k], item).Ok?
    requires item(lines[k]).Thrown?
    ensures Collect(lines, item) == Thrown(item(lines[k]).exception)
  {
    var n := |lines|;
    if n == k + 1 {
      assert lines[..n - 1] == lines[..k];
    } else {
      assert lines[..n - 1][..k] == lines[..k];
      CollectStop(lines[..n - 1], k, item);
    }
  }

  /** Every line gives a value exactly when item throws on none of them. */
  lemma {:induction false} CollectOk(lines: seq<string>, item: string -> Result<real>)
    ensures Collect(lines, item).Ok? <==> forall j :: 0 <= j < |lines| ==> item(lines[j]).Ok?
  {
    if lines != [] {
      var n := |lines|;
      CollectOk(lines[..n - 1], item);
      assert forall j :: 0 <= j < n - 1 ==> lines[..n - 1][j] == lines[j];
    }
  }

  /** A failure is the exception of the first line item throws on. */
  lemma {:induction false} CollectThrown(lines: seq<string>, item: string -> Result<real>) returns (k: nat)
    requires Collect(lines, item).Thrown?
    ensures k < |lines| && item(lines[k]).Thrown?
    ensures Collect(lines, item).exception == item(lines[k]).exception
    ensures forall j :: 0 <= j < k ==> item(lines[j]).Ok?
  {
    var n := |lines|;
    if Collect(lines[..n - 1], item).Thrown? {
      k := CollectThrown(lines[..n - 1], item);
      assert forall j :: 0 <= j <= k ==> lines[..n - 1][j] == lines[j];
    } else {
      k := n - 1;
      CollectOk(lines[..n - 1], item);
      assert forall j :: 0 <= j < n - 1 ==> lines[..n - 1][j] == lines[j];
    }
  }

  /** listInputBySpecificCol in one statement: the values are there exactly
      when every line has a decimal in the column, value j is the decimal of
      line j, and otherwise the exception is that of the first line without
      one. */
  lemma ColumnValuesOfFields(lines: seq<string>, colIndex: int)
    ensures ColumnValues(lines, colIndex).Ok? <==> forall j :: 0 <= j < |lines| ==> FieldValue(lines[j], colIndex).Ok?
    ensures ColumnValues(lines, colIndex).Ok? ==>
              forall j :: 0 <= j < |lines| ==> FieldValue(lines[j], colIndex) == Ok(ColumnValues(lines, colIndex).value[j])
    ensures ColumnValues(lines, colIndex).Thrown? ==>
              exists k :: 0 <= k < |lines| && FieldValue(lines[k], colIndex) == Thrown(ColumnValues(lines, colIndex).exception) &&
                          forall j :: 0 <= j < k ==> FieldValue(lines[j], colIndex).Ok?
  {
    var field := l => FieldValue(l, colIndex);
    var r := Collect(lines, field);
    CollectOk(lines, field);
    if r.Ok? {
      forall j | 0 <= j < |lines| ensures FieldValue(lines[j], colIndex) == Ok(r.value[j]) {
        CollectPresent(lines, field, j);
      }
    } else {
      var k := CollectThrown(lines, field);
      assert FieldValue(lines[k], colIndex) == Thrown(r.exception);
    }
  }

  /** Every line whose column held a decimal has that column. */
  lemma RowsHaveColumn(lines: seq<string>, colIndex: int, values: seq<real>)
    requires Collect(lines, line => FieldValue(line, colIndex)) == Ok(values)
    ensures HasColumn(lines, colIndex)
  {
    forall j | 0 <= j < |lines| ensures 0 <= colIndex < |Split(lines[j])| {
      CollectPresent(lines, line => FieldValue(line, colIndex), j);
    }
  }

  /** The loop of listInputBySpecificCol over the lines the reader hands
      out: read counts the lines taken from the reader; all of them give a
      value, or the last one read throws. */
  method ReadColumn(lines: seq<string>, colIndex: int) returns (r: Result<seq<real>>, read: nat)
    ensures r == ColumnValues(lines, colIndex)
    ensures read <= |lines|
    ensures r.Ok? ==> read == |lines|
    ensures r.Thrown? ==> read > 0 && FieldValue(lines[read - 1], colIndex) == Thrown(r.exception) &&
                          ColumnValues(lines[..read - 1], colIndex).Ok?
  {
    var values: seq<real> := [];
    var i := 0;
    ghost var field := l => FieldValue(l, colIndex);
    while i < |lines|
      invariant 0 <= i <= |lines|
      invariant Collect(lines[..i], field) == Ok(values)
    {
      var item := FieldValue(lines[i], colIndex);
      if item.Thrown? {
        CollectStop(lines, i, field);
        assert lines[..i + 1][..i] == lines[..i];
        return Thrown(item.exception), i + 1;
      }
      CollectNext(lines, i, field, values);
      values := values + [item.value];
      i := i + 1;
    }
    assert lines[..i] == lines;
    return Ok(values), i;
  }

  /** The loop of both summarize methods: line i gets the text of the
      normalised value i inserted after the column, and the separator unless
      it is the last line. It stops at the first value the formula cannot
      compute, which is the first one. */
  method NormalizeRows(rows: seq<string>, colIndex: int, summary: ScoringSummary, formula: Formula,
                       lineSeparator: string) returns (r: Result<seq<string>>)
    requires |rows| == |summary.numbers|
    requires HasColumn(rows, colIndex)
    ensures r.Ok? <==> summary.numbers == [] || Applicable(formula, summary)
    ensures r.Thrown? ==> r.exception == FormulaFailure(formula, summary)
    ensures r.Ok? ==> Lines(rows, colIndex, summary, formula, lineSeparator, r.value)
  {
    var n := |summary.numbers|;
    var lines := rows;
    for i := 0 to n
      invariant |lines| == n
      invariant forall j :: 0 <= j < i ==> Line(rows, j, colIndex, summary, formula, lineSeparator, lines[j])
      invariant forall j :: i <= j < n ==> lines[j] == rows[j]
      invariant i > 0 ==> Applicable(formula, summary)
    {
      var result := Normalized(formula, summary.numbers[i], summary);
      if result.Thrown? {
        return Thrown(result.exception);
      }
      var newLine := AppendToTheNextOfSpecifiedCol(lines[i], colIndex, ToString(result.value)).value;
      newLine := newLine + (if i == n - 1 then "" else lineSeparator);
      assert Line(rows, i, colIndex, summary, formula, lineSeparator, newLine);
      lines := lines[i := newLine];
    }
    r := Ok(lines);
  }

  // ---------------------------------------------------------------- the task

  class CSVTask {
    const colToNormalize: string
    const colToWrite: string
    const lineSeparator: string

    /** The lines of the input file the reader has not handed out yet. */
    var reader: seq<string>
    /** Everything handed to the writer so far. */
    var written: string
    var outputList: seq<string>
    var colToNormalizeIndex: int

    constructor(input: seq<string>, colToNormalize: string, colToWrite: string, lineSeparator: string)
      ensures this.colToNormalize == colToNormalize && this.colToWrite == colToWrite
      ensures this.lineSeparator == lineSeparator
      ensures reader == input && written == "" && outputList == [] && colToNormalizeIndex == -1
    {
      this.colToNormalize := colToNormalize;
      this.colToWrite := colToWrite;
      this.lineSeparator := lineSeparator;
      reader := input;
      written := "";
      outputList := [];
      colToNormalizeIndex := -1;
    }

    /** The header with the new column name inserted after the column. */
    function NewHeader(firstLine: string): string
      reads this
      requires 0 <= colToNormalizeIndex < |Split(firstLine)|
    {
      AppendToTheNextOfSpecifiedCol(firstLine, colToNormalizeIndex, colToWrite).value
    }

    /** handleFirstLine: reads the header, finds the column, and writes the
        header with the new column name inserted after it. */
    method HandleFirstLine() returns (r: Result<()>)
      modifies this
      ensures outputList == old(outputList)
      ensures old(reader) == [] ==> r == Thrown(NullPointerException) && reader == [] &&
                                    written == old(written) && colToNormalizeIndex == old(colToNormalizeIndex)
      ensures old(reader) != [] ==> reader == old(reader)[1..] &&
                                    colToNormalizeIndex == IndexOf(Split(old(reader)[0]), colToNormalize)
      ensures old(reader) != [] && colToNormalizeIndex == -1 ==>
                r == Thrown(IllegalArgumentException("column " + colToNormalize + " not found")) &&
                written == old(written)
      ensures old(reader) != [] && colToNormalizeIndex != -1 ==>
                r == Ok(()) && written == old(written) + NewHeader(old(reader)[0]) + lineSeparator
      ensures r.Ok? ==> old(reader) != [] && colToNormalizeIndex != -1
    {
      if reader == [] {
        return Thrown(NullPointerException);
      }
      var origFirstLine := reader[0];
      reader := reader[1..];
      var columns := Split(origFirstLine);
      colToNormalizeIndex := IndexOf(columns, colToNormalize);
      if colToNormalizeIndex == -1 {
        return Thrown(IllegalArgumentException("column " + colToNormalize + " not found"));
      }
      var newLine := AppendToTheNextOfSpecifiedCol(origFirstLine, colToNormalizeIndex, colToWrite);
      written := written + newLine.value + lineSeparator;
      r := Ok(());
    }

    /** listInputBySpecificCol: reads the remaining lines, keeping each line
        and the value of its column, until the input ends or a line has no
        decimal in that column; that line is read but not kept. */
    method ListInputBySpecificCol() returns (r: Result<seq<real>>)
      modifies this
      ensures r == ColumnValues(old(reader), colToNormalizeIndex)
      ensures written == old(written) && colToNormalizeIndex == old(colToNormalizeIndex)
      ensures r.Ok? ==> reader == [] && outputList == old(outputList) + old(reader)
      ensures r.Thrown? ==> var k := |outputList| - |old(outputList)|;
                              0 <= k < |old(reader)| && reader == old(reader)[k + 1..] &&
                              outputList == old(outputList) + old(reader)[..k] &&
                              ColumnValues(old(reader)[..k], colToNormalizeIndex).Ok? &&
                              FieldValue(old(reader)[k], colToNormalizeIndex) == Thrown(r.exception)
    {
      var read;
      r, read := ReadColumn(reader, colToNormalizeIndex);
      var kept := if r.Ok? then read else read - 1;
      outputList := outputList + reader[..kept];
      reader := reader[read..];
    }

    /** writeToTheOutputFile: hands every line of outputList to the writer
        in order. */
    method WriteToTheOutputFile()
      modifies this
      ensures written == old(written) + Concat(outputList)
      ensures reader == old(reader) && outputList == old(outputList)
      ensures colToNormalizeIndex == old(colToNormalizeIndex)
    {
      var i := 0;
      while i < |outputList|
        invariant 0 <= i <= |outputList|
        invariant written == old(written) + Concat(outputList[..i])
        invariant reader == old(reader) && outputList == old(outputList)
        invariant colToNormalizeIndex == old(colToNormalizeIndex)
      {
        assert outputList[..i + 1][..i] == outputList[..i];
        written := written + outputList[i];
        i := i + 1;
      }
      assert outputList[..|outputList|] == outputList;
    }

    /** The loop of both summarize methods over outputList. */
    method NormalizeLines(summary: ScoringSummary, formula: Formula) returns (r: Result<()>)
      requires |outputList| == |summary.numbers|
      requires HasColumn(outputList, colToNormalizeIndex)
      modifies this
      ensures reader == old(reader) && written == old(written)
      ensures colToNormalizeIndex == old(colToNormalizeIndex)
      ensures r.Ok? <==> summary.numbers == [] || Applicable(formula, summary)
      ensures r.Thrown? ==> r.exception == FormulaFailure(formula, summary) && outputList == old(outputList)
      ensures r.Ok? ==> Lines(old(outputList), colToNormalizeIndex, summary, formula, lineSeparator, outputList)
    {
      var lines :- NormalizeRows(outputList, colToNormalizeIndex, summary, formula, lineSeparator);
      outputList := lines;
      r := Ok(());
    }

    /** summarizeAndOutputMinMaxFormula: header, values, every data line
        with its min-max value, then the whole output to the writer; the
        summary comes back. */
    method SummarizeAndOutputMinMaxFormula() returns (r: Result<ScoringSummary>)
      requires outputList == []
      modifies this
      ensures old(reader) == [] ==> r == Thrown(NullPointerException) && written == old(written)
      ensures old(reader) != [] ==> colToNormalizeIndex == IndexOf(Split(old(reader)[0]), colToNormalize)
      ensures old(reader) != [] && colToNormalizeIndex == -1 ==>
                r == Thrown(IllegalArgumentException("column " + colToNormalize + " not found")) &&
                written == old(written)
      ensures old(reader) != [] && colToNormalizeIndex != -1 ==>
                Outcome(old(reader)[1..], colToNormalizeIndex, MinMax, r)
      ensures old(reader) == [] ==> reader == [] && outputList == []
      ensures old(reader) == [] ==> colToNormalizeIndex == old(colToNormalizeIndex)
      ensures old(reader) != [] && colToNormalizeIndex == -1 ==> reader == old(reader)[1..] && outputList == []
      ensures old(reader) != [] && colToNormalizeIndex != -1 ==>
                Consumed(old(reader)[1..], colToNormalizeIndex, r.Ok?, reader, outputList)
      ensures r.Thrown? && old(reader) != [] && colToNormalizeIndex != -1 ==>
                written == old(written) + NewHeader(old(reader)[0]) + lineSeparator
      ensures r.Ok? ==> old(reader) != [] && colToNormalizeIndex != -1
      ensures r.Ok? ==> Lines(old(reader)[1..], colToNormalizeIndex, r.value, MinMax, lineSeparator, outputList)
      ensures r.Ok? ==> written == old(written) + NewHeader(old(reader)[0]) + lineSeparator + Concat(outputList)
    {
      var _ :- HandleFirstLine();
      r := SummarizeData(MinMax);
    }

    /** The part both summarize methods share once the header is written:
        the column's values, every data line with its normalised value, then
        the whole output to the writer. */
    method SummarizeData(formula: Formula) returns (r: Result<ScoringSummary>)
      requires outputList == []
      modifies this
      ensures colToNormalizeIndex == old(colToNormalizeIndex)
      ensures Outcome(old(reader), colToNormalizeIndex, formula, r)
      ensures Consumed(old(reader), colToNormalizeIndex, r.Ok?, reader, outputList)
      ensures r.Thrown? ==> written == old(written)
      ensures r.Ok? ==> Lines(old(reader), colToNormalizeIndex, r.value, formula, lineSeparator, outputList)
      ensures r.Ok? ==> written == old(written) + Concat(outputList)
    {
      ghost var rows := reader;
      var numbersList :- ListInputBySpecificCol();
      var summary := ScoringSummary(numbersList);
      assert outputList == [] + rows == rows;
      var _ :- NormalizeLines(summary, formula);
      WriteToTheOutputFile();
      r := Ok(summary);
    }

    /** summarizeAndOutputZScoreFormula: header, values, every data line
        with its z-score, then the whole output to the writer; the summary
        comes back. */
    method SummarizeAndOutputZScoreFormula(fpSqrt: real -> real) returns (r: Result<ScoringSummary>)
      requires outputList == []
      modifies this
      ensures old(reader) == [] ==> r == Thrown(NullPointerException) && written == old(written)
      ensures old(reader) != [] ==> colToNormalizeIndex == IndexOf(Split(old(reader)[0]), colToNormalize)
      ensures old(reader) != [] && colToNormalizeIndex == -1 ==>
                r == Thrown(IllegalArgumentException("column " + colToNormalize + " not found")) &&
                written == old(written)
      ensures old(reader) != [] && colToNormalizeIndex != -1 ==>
                Outcome(old(reader)[1..], colToNormalizeIndex, ZScore(fpSqrt), r)
      ensures old(reader) == [] ==> reader == [] && outputList == []
      ensures old(reader) == [] ==> colToNormalizeIndex == old(colToNormalizeIndex)
      ensures old(reader) != [] && colToNormalizeIndex == -1 ==> reader == old(reader)[1..] && outputList == []
      ensures old(reader) != [] && colToNormalizeIndex != -1 ==>
                Consumed(old(reader)[1..], colToNormalizeIndex, r.Ok?, reader, outputList)
      ensures r.Thrown? && old(reader) != [] && colToNormalizeIndex != -1 ==>
                written == old(written) + NewHeader(old(reader)[0]) + lineSeparator
      ensures r.Ok? ==> old(reader) != [] && colToNormalizeIndex != -1
      ensures r.Ok? ==> Lines(old(reader)[1..], colToNormalizeIndex, r.value, ZScore(fpSqrt), lineSeparator, outputList)
      ensures r.Ok? ==> written == old(written) + NewHeader(old(reader)[0]) + lineSeparator + Concat(outputList)
    {
      var _ :- HandleFirstLine();
      r := SummarizeData(ZScore(fpSqrt));
    }
  }

  /** How a run ends once the header has the column: the exception of the
      first bad data line, the formula's exception when it cannot be applied
      to a non-empty column, and otherwise the summary of the column. */
  ghost predicate Outcome(rows: seq<string>, colIndex: int, formula: Formula, r: Result<ScoringSummary>)
  {
    var values := ColumnValues(rows, colIndex);
    if values.Thrown? then r == Thrown(values.exception)
    else
      var summary := ScoringSummary(values.value);
      if summary.numbers != [] && !Applicable(formula, summary) then r == Thrown(FormulaFailure(formula, summary))
      else r == Ok(summary)
  }

  /** Where reading stops once the header has the column: when every data
      line has a decimal in the column the reader is exhausted, and the data
      lines stay in outputList unless the run succeeded (which rewrites
      them); otherwise the reader stops right after the first line without
      one, and outputList holds the lines before it. */
  ghost predicate Consumed(rows: seq<string>, colIndex: int, ok: bool, reader: seq<string>, outputList: seq<string>)
  {
    if ColumnValues(rows, colIndex).Ok? then
      reader == [] && (!ok ==> outputList == rows)
    else
      var k := |outputList|;
      k < |rows| && reader == rows[k + 1..] && outputList == rows[..k] &&
      ColumnValues(rows[..k], colIndex).Ok? && FieldValue(rows[k], colIndex) == Thrown(ColumnValues(rows, colIndex).exception)
  }

  /** Output line j: data line j with the text of its normalised value
      inserted after the column, and the separator unless it is the last. */
  ghost predicate Line(rows: seq<string>, j: int, colIndex: int, summary: ScoringSummary, formula: Formula,
                       lineSeparator: string, line: string)
  {
    0 <= j < |rows| && j < |summary.numbers| && 0 <= colIndex < |Split(rows[j])| &&
    Normalized(formula, summary.numbers[j], summary).Ok? &&
    line == NormalizedLine(rows[j], colIndex, ToString(Normalized(formula, summary.numbers[j], summary).value),
                           j == |rows| - 1, lineSeparator)
  }

  /** All output lines. */
  ghost predicate Lines(rows: seq<string>, colIndex: int, summary: ScoringSummary, formula: Formula,
                        lineSeparator: string, outputList: seq<string>)
  {
    |outputList| == |rows| &&
    forall j :: 0 <= j < |rows| ==> Line(rows, j, colIndex, summary, formula, lineSeparator, outputList[j])
  }

  // ---------------------------------------------------------------- lemmas

  /** Every output line carries its value: splitting the line again with
      Java's rules, the new column reads back as exactly the value written. */
  lemma OutputLineReadsBack(line: string, colIndex: int, value: real)
    requires 0 <= colIndex < |Split(line)| && HasScale2(value)
    ensures AppendToTheNextOfSpecifiedCol(line, colIndex, ToString(value)).Ok?
    ensures FieldValue(AppendToTheNextOfSpecifiedCol(line, colIndex, ToString(value)).value, colIndex + 1) == Ok(value)
  {
    var text := ToString(value);
    ToStringRoundTrip(value);
    InsertedFieldReadsBack(line, colIndex, text);
    var newLine := AppendToTheNextOfSpecifiedCol(line, colIndex, text).value;
    FieldValueOf(newLine, colIndex + 1, text, value);
  }

  /** With a single data line the min-max run divides by zero: the rounded
      min and max are the same number. */
  lemma SingleRowMinMaxFails(x: real)
    ensures Normalized(MinMax, x, ScoringSummary([x])) == Thrown(ArithmeticException)
  {
    SingleValueSummary(x, y => y);
  }

  /** With a single data line the z-score run divides by zero: the standard
      deviation of one value is 0. */
  lemma SingleRowZScoreFails(x: real, fpSqrt: real -> real)
    ensures Normalized(ZScore(fpSqrt), x, ScoringSummary([x])) == Thrown(ArithmeticException)
  {
    SingleValueSummary(x, fpSqrt);
  }

  /** Values that differ but agree to two places also divide by zero. */
  lemma CloseValuesMinMaxFails()
    ensures Normalized(MinMax, 1.001, ScoringSummary([1.001, 1.002])) == Thrown(ArithmeticException)
  {
    var summary := ScoringSummary([1.001, 1.002]);
    assert Utils.Min([1.001, 1.002]).value == 1.001;
    assert Utils.Max([1.001, 1.002]).value == 1.002;
    assert IsHalfEvenRounding(100, 1.001 * 100.0) && IsHalfEvenRounding(100, 1.002 * 100.0);
    SetScale2Unique(1.001, 1.0);
    SetScale2Unique(1.002, 1.0);
  }

  /** A minimum that already has two places gives 0.00 and a maximum that
      has two places gives 1.00. */
  lemma MinMaxEndpoints(summary: ScoringSummary)
    requires summary.numbers != []
    requires HasScale2(Utils.Min(summary.numbers).value)
    requires HasScale2(Utils.Max(summary.numbers).value)
    requires Applicable(MinMax, summary)
    ensures Normalized(MinMax, Utils.Min(summary.numbers).value, summary) == Ok(0.0)
    ensures Normalized(MinMax, Utils.Max(summary.numbers).value, summary) == Ok(1.0)
  {
    var lo, hi := Utils.Min(summary.numbers).value, Utils.Max(summary.numbers).value;
    SetScale2OfScaled(lo);
    SetScale2OfScaled(hi);
    assert summary.Min() == Ok(lo) && summary.Max() == Ok(hi);
    MinMaxOfMinimum(lo, hi);
    MinMaxOfMaximum(lo, hi);
    SetScale2Idempotent(0.0);
    SetScale2Idempotent(1.0);
  }

  /** The texts the end points are written as. */
  lemma EndpointTexts()
    ensures ToString(0.0) == "0.00" && ToString(1.0) == "1.00"
  {
    assert Unscaled2(0.0) == 0 && Unscaled2(1.0) == 100;
  }

  /** The min-max run does not map the minimum to 0.00 when the minimum has
      more than two places: the loop uses the rounded min, so 0.015 next to
      1 (rounded min 0.02) gets -0.01. */
  lemma MinimumCanMapBelowZero()
    ensures Normalized(MinMax, 0.015, ScoringSummary([0.015, 1.0])) == Ok(-0.01)
    ensures ToString(-0.01) == "-0.01"
  {
    var summary := ScoringSummary([0.015, 1.0]);
    assert Utils.Min([0.015, 1.0]).value == 0.015;
    assert Utils.Max([0.015, 1.0]).value == 1.0;
    assert IsHalfEvenRounding(2, 0.015 * 100.0);
    SetScale2Unique(0.015, 0.02);
    SetScale2OfScaled(1.0);
    assert summary.Min().value == 0.02 && summary.Max().value == 1.0;
    var q := (0.015 - 0.02) / (1.0 - 0.02);
    assert IsHalfEvenRounding(-1, q * 100.0);
    SetScale2Unique(q, -0.01);
    SetScale2Idempotent(-0.01);
    assert Unscaled2(-0.01) == -1;
  }

  /** The z-score of a value equal to the mean is 0.00. */
  lemma ZScoreOfMeanRow(summary: ScoringSummary, fpSqrt: real -> real)
    requires Applicable(ZScore(fpSqrt), summary)
    ensures Normalized(ZScore(fpSqrt), summary.Mean().value, summary) == Ok(0.0)
  {
    ZScoreOfMean(summary.Mean().value, summary.StandardDeviation(fpSqrt).value);
    SetScale2Idempotent(0.0);
  }

  /** A column of 10^200 and -10^200: the variance 10^400 is beyond the
      double range, so the z-score run throws NumberFormatException before it
      reaches the division. */
  lemma ZScoreOverflowFails(fpSqrt: real -> real)
    ensures Normalized(ZScore(fpSqrt), Utils.Huge, ScoringSummary([Utils.Huge, -Utils.Huge])) ==
            Thrown(NumberFormatException)
  {
    Utils.DeviationCanOverflow(fpSqrt);
  }

  /** A file with a header and no data lines succeeds: the loop never runs,
      so no accessor is called, and only the header is written. */
  lemma HeaderOnlyRunSucceeds(colIndex: int, formula: Formula)
    ensures Outcome([], colIndex, formula, Ok(ScoringSummary([])))
  {
  }
}
