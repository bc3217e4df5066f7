/** The comma-separated lines the task reads and writes: String.split(",")
    with Java's rules, String.join(",", ...), List.indexOf, and the two
    per-line operations of CSVTask that work on one line at a time. */
module Csv {
  import opened Exceptions
  import opened DecimalText

  // ---------------------------------------------------------------- fields

  /** Every piece between commas, empty pieces included: n commas give n + 1
      pieces. */
  function SplitAll(s: string): (fields: seq<string>)
    ensures |fields| >= 1
    ensures forall i :: 0 <= i < |fields| ==> ',' !in fields[i]
  {
    if s == [] then [""]
    else
      var rest := SplitAll(s[1..]);
      if s[0] == ',' then [""] + rest
      else [[s[0]] + rest[0]] + rest[1..]
  }

  /** The pieces with the empty ones at the end removed. */
  function DropTrailingEmpty(fields: seq<string>): (r: seq<string>)
    ensures r <= fields
    ensures r == [] || r[|r| - 1] != ""
    ensures forall i :: |r| <= i < |fields| ==> fields[i] == ""
  {
    if fields != [] && fields[|fields| - 1] == "" then DropTrailingEmpty(fields[..|fields| - 1])
    else fields
  }

  /** String.split(","): a line without a comma is one field, itself;
      otherwise the pieces between commas, less the trailing empty ones, so
      "a,b,," has two fields and "," has none. */
  function Split(s: string): (fields: seq<string>)
    ensures forall i :: 0 <= i < |fields| ==> ',' !in fields[i]
    ensures ',' !in s ==> fields == [s]
    ensures ',' in s ==> fields <= SplitAll(s) && (fields == [] || fields[|fields| - 1] != "")
    ensures ',' in s ==> forall i :: |fields| <= i < |SplitAll(s)| ==> SplitAll(s)[i] == ""
  {
    if ',' !in s then [s] else DropTrailingEmpty(SplitAll(s))
  }

  /** String.join(",", fields): the text has a comma exactly when there
      are two or more fields or one of them has a comma. */
  function Join(fields: seq<string>): (s: string)
    ensures ',' in s <==> |fields| >= 2 || exists i :: 0 <= i < |fields| && ',' in fields[i]
  {
    if fields == [] then ""
    else if |fields| == 1 then fields[0]
    else
      var s := fields[0] + "," + Join(fields[1..]);
      assert s[|fields[0]|] == ',';
      s
  }

  /** List.indexOf: the first position holding x, or -1. */
  function IndexOf(list: seq<string>, x: string): (i: int)
    ensures -1 <= i < |list|
    ensures i == -1 <==> x !in list
    ensures i >= 0 ==> list[i] == x && forall j :: 0 <= j < i ==> list[j] != x
  {
    if list == [] then -1
    else if list[0] == x then 0
    else
      var i := IndexOf(list[1..], x);
      if i == -1 then -1 else i + 1
  }

  // ---------------------------------------------------------------- lines

  /** appendToTheNextOfSpecifiedCol: split the line, insert str right after
      column colIndex, join again; ArrayList.add throws when that position
      is outside the list. When str has no comma, the pieces of the new line
      are the old fields with str in between. */
  function AppendToTheNextOfSpecifiedCol(origLine: string, colIndex: int, str: string): (r: Result<string>)
    ensures r.Thrown? <==> !(0 <= colIndex + 1 <= |Split(origLine)|)
    ensures r.Thrown? ==> r.exception == IndexOutOfBoundsException
    ensures r.Ok? && ',' !in str ==>
              SplitAll(r.value) == Split(origLine)[..colIndex + 1] + [str] + Split(origLine)[colIndex + 1..]
  {
    var cols := Split(origLine);
    var pos := colIndex + 1;
    if pos < 0 || pos > |cols| then Thrown(IndexOutOfBoundsException)
    else
      var inserted := cols[..pos] + [str] + cols[pos..];
      InsertedFieldsRoundTrip(cols, pos, str);
      Ok(Join(inserted))
  }

  lemma InsertedFieldsRoundTrip(cols: seq<string>, pos: nat, str: string)
    requires pos <= |cols|
    requires forall i :: 0 <= i < |cols| ==> ',' !in cols[i]
    ensures ',' !in str ==> SplitAll(Join(cols[..pos] + [str] + cols[pos..])) == cols[..pos] + [str] + cols[pos..]
  {
    if ',' !in str {
      var inserted := cols[..pos] + [str] + cols[pos..];
      forall i | 0 <= i < |inserted| ensures ',' !in inserted[i] {
        if i > pos {
          assert inserted[i] == cols[i - 1];
        }
      }
      SplitAllJoin(inserted);
    }
  }

  /** new BigDecimal(line.split(",")[colIndex]): an index outside the fields
      throws, and so does a field that is not a decimal. */
  function FieldValue(line: string, colIndex: int): (r: Result<real>)
    ensures !(0 <= colIndex < |Split(line)|) ==> r == Thrown(IndexOutOfBoundsException)
    ensures 0 <= colIndex < |Split(line)| && ParseDecimal(Split(line)[colIndex]).None? ==>
              r == Thrown(NumberFormatException)
    ensures r.Ok? ==> 0 <= colIndex < |Split(line)| && ParseDecimal(Split(line)[colIndex]) == Some(r.value)
  {
    var fields := Split(line);
    if colIndex < 0 || colIndex >= |fields| then Thrown(IndexOutOfBoundsException)
    else
      match ParseDecimal(fields[colIndex])
      case None => Thrown(NumberFormatException)
      case Some(v) => Ok(v)
  }

  // ---------------------------------------------------------------- lemmas

  /** Joining the pieces of a line gives the line back. */
  lemma {:induction false} JoinSplitAll(s: string)
    ensures Join(SplitAll(s)) == s
  {
    if s != [] {
      var rest := SplitAll(s[1..]);
      JoinSplitAll(s[1..]);
      if s[0] == ',' {
        assert SplitAll(s) == [""] + rest;
        assert ([""] + rest)[1..] == rest;
      } else {
        var fields := [[s[0]] + rest[0]] + rest[1..];
        assert fields[1..] == rest[1..];
        if |rest| == 1 {
          assert Join(rest) == rest[0];
        } else {
          assert Join(rest) == rest[0] + "," + Join(rest[1..]);
        }
      }
    }
  }

  /** Splitting joined comma-free fields gives the fields back. */
  lemma {:induction false} SplitAllJoin(fields: seq<string>)
    requires fields != []
    requires forall i :: 0 <= i < |fields| ==> ',' !in fields[i]
    ensures SplitAll(Join(fields)) == fields
  {
    if |fields| == 1 {
      SplitAllOfField(fields[0]);
    } else {
      SplitAllJoin(fields[1..]);
      SplitAllConcat(fields[0], Join(fields[1..]));
      assert fields == [fields[0]] + fields[1..];
    }
  }

  /** A comma-free string is a single piece. */
  lemma {:induction false} SplitAllOfField(f: string)
    requires ',' !in f
    ensures SplitAll(f) == [f]
  {
    if f != [] {
      assert f[0] in f;
      SplitAllOfField(f[1..]);
      assert [f[0]] + f[1..] == f;
    }
  }

  /** Splitting f + "," + s, for comma-free f, gives f and then the pieces
      of s. */
  lemma {:induction false} SplitAllConcat(f: string, s: string)
    requires ',' !in f
    ensures SplitAll(f + "," + s) == [f] + SplitAll(s)
  {
    if f == [] {
      assert ("" + "," + s)[1..] == s;
    } else {
      assert f[0] in f;
      SplitAllConcat(f[1..], s);
      assert (f + "," + s)[1..] == f[1..] + "," + s;
      assert [f[0]] + f[1..] == f;
    }
  }

  /** Java drops trailing empty fields: a line whose last fields are empty
      loses them once a column is inserted before them, so "1,2,,"
      becomes "1,x,2". */
  lemma TrailingEmptyFieldsAreDropped()
    ensures AppendToTheNextOfSpecifiedCol("1,2,,", 0, "x") == Ok("1,x,2")
  {
    SplitOfTrailingCommas();
    assert ["1", "2"][..1] + ["x"] + ["1", "2"][1..] == ["1", "x", "2"];
    JoinOfThree("1", "x", "2");
    assert "1" + "," + "x" + "," + "2" == "1,x,2";
  }

  /** Three fields joined are the first, a comma, the second, a comma, the
      third. */
  lemma JoinOfThree(a: string, b: string, c: string)
    ensures Join([a, b, c]) == a + "," + b + "," + c
  {
    assert [a, b, c][1..] == [b, c] && [b, c][1..] == [c];
    assert Join([b, c]) == b + "," + c;
    assert a + "," + (b + "," + c) == a + "," + b + "," + c;
  }

  lemma SplitOfTrailingCommas()
    ensures Split("1,2,,") == ["1", "2"]
  {
    SplitAllConcat("", "");
    assert "" + "," + "" == ",";
    SplitAllConcat("2", ",");
    assert "2" + "," + "," == "2,,";
    SplitAllConcat("1", "2,,");
    assert "1" + "," + "2,," == "1,2,,";
    assert SplitAll("1,2,,") == ["1", "2", "", ""];
    assert DropTrailingEmpty(["1", "2", "", ""]) == ["1", "2"];
    assert "1,2,,"[1] == ',';
  }

  /** A field written into a line reads back from the same position: the
      new line splits, with Java's rules, into the old fields with str at
      colIndex + 1, and str is not dropped as a trailing empty field. */
  lemma InsertedFieldReadsBack(origLine: string, colIndex: int, str: string)
    requires 0 <= colIndex < |Split(origLine)|
    requires ',' !in str && str != ""
    ensures AppendToTheNextOfSpecifiedCol(origLine, colIndex, str).Ok?
    ensures var line := AppendToTheNextOfSpecifiedCol(origLine, colIndex, str).value;
            colIndex + 1 < |Split(line)| && Split(line)[colIndex + 1] == str
  {
    var cols := Split(origLine);
    var inserted := cols[..colIndex + 1] + [str] + cols[colIndex + 1..];
    var line := AppendToTheNextOfSpecifiedCol(origLine, colIndex, str).value;
    assert SplitAll(line) == inserted;
    assert inserted[colIndex + 1] == str;
  }

  /** The value of a field whose text is known. */
  lemma FieldValueOf(line: string, colIndex: int, text: string, v: real)
    requires 0 <= colIndex < |Split(line)| && Split(line)[colIndex] == text
    requires ParseDecimal(text) == Some(v)
    ensures FieldValue(line, colIndex) == Ok(v)
  {
  }
}
