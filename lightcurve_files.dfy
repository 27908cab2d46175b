/** Reading a light curve exported as comma-separated rows of text: field 0 is the Julian date,
    field 1 the relative magnitude. The dates are shortened by subtracting an offset: either
    the integer part of the first row's date, or a fixed number. Rows reach the model already
    split into fields. */
module LightCurveFiles {
  import opened Wrappers
  import PyText

  /** The exceptions a read loop can raise, with the number of the row that raised it.
      `NoRows` is reading nothing where the script needs a first row. */
  datatype ReadError =
    | MissingField(row: nat)      // `entry[k]` past the end of the row: IndexError
    | BadNumber(row: nat)         // `int(...)` or `float(...)` on other text: ValueError
    | WrongFieldCount(row: nat)   // `for julian_date, relmag in ...` on a row without two fields
    | NoRows

  /** The two columns, in file order. */
  datatype Series = Series(julianDates: seq<real>, relMags: seq<real>)

  /** `int(entry[0].split(".")[0])`: the integer before the first '.' of the first date. */
  function RowPrefix(row: seq<string>): Result<int, ReadError>
  {
    if |row| == 0 then Err(MissingField(0))
    else match PyText.ParseInt(PyText.BeforeDot(row[0]))
      case None => Err(BadNumber(0))
      case Some(p) => Ok(p)
  }

  /** One pass of a read loop over row `i`: the date less `offset`, and the relative magnitude.
      With `unpackPair` the row is unpacked into exactly two names first. */
  function ReadRow(row: seq<string>, i: nat, offset: int, unpackPair: bool): (r: Result<(real, real), ReadError>)
    ensures r.Ok? ==> |row| >= 2 && (unpackPair ==> |row| == 2)
  {
    if unpackPair && |row| != 2 then Err(WrongFieldCount(i))
    else if |row| == 0 then Err(MissingField(i))
    else match PyText.ParseFloat(row[0])
      case None => Err(BadNumber(i))
      case Some(date) =>
        if |row| < 2 then Err(MissingField(i))
        else match PyText.ParseFloat(row[1])
          case None => Err(BadNumber(i))
          case Some(relMag) => Ok((date - offset as real, relMag))
  }

  /** What one pass of the loop yields for each row on its own. */
  function RowResults(rows: seq<seq<string>>, offset: int, unpackPair: bool): (r: seq<Result<(real, real), ReadError>>)
    ensures |r| == |rows|
  {
    seq(|rows|, i requires 0 <= i < |rows| => ReadRow(rows[i], i, offset, unpackPair))
  }

  /** Appending the values of each pass in order until the first pass that raises. */
  function Collect(results: seq<Result<(real, real), ReadError>>): Result<Series, ReadError>
  {
    if results == [] then Ok(Series([], []))
    else match Collect(results[..|results| - 1])
      case Err(e) => Err(e)
      case Ok(s) =>
        match results[|results| - 1]
        case Err(e) => Err(e)
        case Ok(values) => Ok(Series(s.julianDates + [values.0], s.relMags + [values.1]))
  }

  /** One more pass after passes that all got through. */
  lemma CollectStep(results: seq<Result<(real, real), ReadError>>, i: nat)
    requires i < |results| && Collect(results[..i]).Ok?
    ensures var s := Collect(results[..i]).value;
      Collect(results[..i + 1]) == match results[i]
        case Err(e) => Err(e)
        case Ok(values) => Ok(Series(s.julianDates + [values.0], s.relMags + [values.1]))
  {
    assert results[..i + 1][..i] == results[..i];
  }

  /** Once a pass has raised, later rows change nothing. */
  lemma {:induction false} CollectErrorPersists(results: seq<Result<(real, real), ReadError>>, k: nat)
    requires k <= |results| && Collect(results[..k]).Err?
    ensures Collect(results) == Collect(results[..k])
    decreases |results| - k
  {
    if k < |results| {
      assert results[..k + 1][..k] == results[..k];
      CollectErrorPersists(results, k + 1);
    } else {
      assert results[..k] == results;
    }
  }

  /** The read loop over all rows with one offset. */
  function ReadRows(rows: seq<seq<string>>, offset: int, unpackPair: bool): Result<Series, ReadError>
  {
    Collect(RowResults(rows, offset, unpackPair))
  }

  /** The read loop that takes the offset from the first row (`if i == 0:`) and keeps it in a
      local variable: a file without rows leaves that variable unbound, which raises when the
      caller reads it. */
  function ReadPrefixed(rows: seq<seq<string>>): Result<Series, ReadError>
  {
    if rows == [] then Err(NoRows)
    else match RowPrefix(rows[0])
      case Err(e) => Err(e)
      case Ok(p) => ReadRows(rows, p, false)
  }

  // ---------------------------------------------------------------------------------------
  // Properties

  /** A row the loop gets through. */
  predicate Readable(row: seq<string>, unpackPair: bool)
  {
    (if unpackPair then |row| == 2 else |row| >= 2) &&
    PyText.ParseFloat(row[0]).Some? && PyText.ParseFloat(row[1]).Some?
  }

  /** The row number an error names. */
  function ErrorRow(e: ReadError): int
  {
    match e
    case MissingField(row) => row
    case BadNumber(row) => row
    case WrongFieldCount(row) => row
    case NoRows => -1
  }

  lemma ReadRowOk(row: seq<string>, i: nat, offset: int, unpackPair: bool)
    ensures ReadRow(row, i, offset, unpackPair).Ok? <==> Readable(row, unpackPair)
    ensures ReadRow(row, i, offset, unpackPair).Err? ==> ErrorRow(ReadRow(row, i, offset, unpackPair).error) == i
    ensures ReadRow(row, i, offset, unpackPair).Ok? ==>
      ReadRow(row, i, offset, unpackPair).value ==
        (PyText.ParseFloat(row[0]).value - offset as real, PyText.ParseFloat(row[1]).value)
  {
  }

  /** Collecting succeeds exactly when every pass does, and then keeps every pass's values in
      order. */
  lemma {:induction false} CollectOk(results: seq<Result<(real, real), ReadError>>)
    ensures Collect(results).Ok? <==> forall i :: 0 <= i < |results| ==> results[i].Ok?
    ensures Collect(results).Ok? ==>
      |Collect(results).value.julianDates| == |results| && |Collect(results).value.relMags| == |results| &&
      forall i :: 0 <= i < |results| ==>
        Collect(results).value.julianDates[i] == results[i].value.0 &&
        Collect(results).value.relMags[i] == results[i].value.1
  {
    if results != [] {
      var n := |results| - 1;
      CollectOk(results[..n]);
      assert forall i :: 0 <= i < n ==> results[..n][i] == results[i];
    }
  }

  /** A failed collection reports the error of the first pass that raised. */
  lemma {:induction false} CollectErr(results: seq<Result<(real, real), ReadError>>) returns (k: int)
    requires Collect(results).Err?
    ensures 0 <= k < |results| && results[k] == Err(Collect(results).error)
    ensures forall j :: 0 <= j < k ==> results[j].Ok?
  {
    var n := |results| - 1;
    if Collect(results[..n]).Err? {
      k := CollectErr(results[..n]);
      assert forall j :: 0 <= j < k ==> results[..n][j] == results[j];
    } else {
      CollectOk(results[..n]);
      assert forall j :: 0 <= j < n ==> results[..n][j] == results[j];
      k := n;
    }
  }

  /** The loop reads every row exactly when every row is readable; it then returns one date and
      one magnitude per row, in order: the date less the offset, and the magnitude as written. */
  lemma ReadRowsOk(rows: seq<seq<string>>, offset: int, unpackPair: bool)
    ensures ReadRows(rows, offset, unpackPair).Ok? <==> forall i :: 0 <= i < |rows| ==> Readable(rows[i], unpackPair)
    ensures ReadRows(rows, offset, unpackPair).Ok? ==>
      var r := ReadRows(rows, offset, unpackPair).value;
      |r.julianDates| == |rows| && |r.relMags| == |rows| &&
      forall i :: 0 <= i < |rows| ==> (Readable(rows[i], unpackPair) &&
        r.julianDates[i] == PyText.ParseFloat(rows[i][0]).value - offset as real &&
        r.relMags[i] == PyText.ParseFloat(rows[i][1]).value)
  {
    var results := RowResults(rows, offset, unpackPair);
    CollectOk(results);
    forall i | 0 <= i < |rows|
      ensures results[i].Ok? <==> Readable(rows[i], unpackPair)
      ensures results[i].Ok? ==>
        results[i].value == (PyText.ParseFloat(rows[i][0]).value - offset as real, PyText.ParseFloat(rows[i][1]).value)
    {
      ReadRowOk(rows[i], i, offset, unpackPair);
    }
  }

  /** Otherwise the error names the first row that is not readable, and is that row's own
      error. */
  lemma ReadRowsErr(rows: seq<seq<string>>, offset: int, unpackPair: bool)
    requires ReadRows(rows, offset, unpackPair).Err?
    ensures var e := ReadRows(rows, offset, unpackPair).error;
      0 <= ErrorRow(e) < |rows| && !Readable(rows[ErrorRow(e)], unpackPair) &&
      Err(e) == ReadRow(rows[ErrorRow(e)], ErrorRow(e), offset, unpackPair) &&
      forall j :: 0 <= j < ErrorRow(e) ==> Readable(rows[j], unpackPair)
  {
    var results := RowResults(rows, offset, unpackPair);
    var k := CollectErr(results);
    assert results[k] == ReadRow(rows[k], k, offset, unpackPair);
    ReadRowOk(rows[k], k, offset, unpackPair);
    forall j | 0 <= j < k
      ensures Readable(rows[j], unpackPair)
    {
      assert results[j] == ReadRow(rows[j], j, offset, unpackPair);
      ReadRowOk(rows[j], j, offset, unpackPair);
    }
  }

  /** Fields after the second are never read: cutting every row to its first two fields
      changes nothing. */
  lemma ExtraFieldsIgnored(rows: seq<seq<string>>, cut: seq<seq<string>>, offset: int)
    requires |cut| == |rows|
    requires forall i :: 0 <= i < |rows| ==> |rows[i]| >= 2 && cut[i] == rows[i][..2]
    ensures ReadRows(cut, offset, false) == ReadRows(rows, offset, false)
  {
    assert RowResults(cut, offset, false) == RowResults(rows, offset, false) by {
      forall i | 0 <= i < |rows|
        ensures ReadRow(cut[i], i, offset, false) == ReadRow(rows[i], i, offset, false)
      {
        assert cut[i][0] == rows[i][0] && cut[i][1] == rows[i][1];
      }
    }
  }

  /** The first row both fixes the offset and is read with it: a first date written without a
      minus sign becomes its own fractional part, a value in [0, 1), and exactly 0 when it has
      no '.'. */
  lemma FirstDateOffset(rows: seq<seq<string>>)
    requires ReadPrefixed(rows).Ok?
    requires rows[0][0] == [] || rows[0][0][0] != '-'
    ensures |ReadPrefixed(rows).value.julianDates| == |rows| > 0
    ensures 0.0 <= ReadPrefixed(rows).value.julianDates[0] < 1.0
    ensures '.' !in rows[0][0] ==> ReadPrefixed(rows).value.julianDates[0] == 0.0
  {
    var p := RowPrefix(rows[0]).value;
    ReadRowsOk(rows, p, false);
    DateLessIntegerPart(rows[0][0]);
  }

  /** Reading prefixed rows fails exactly when there are no rows, the first date has no integer
      part before its '.', or some row is not readable; every date is then shifted by the same
      integer part of the first date. */
  lemma ReadPrefixedOk(rows: seq<seq<string>>)
    ensures ReadPrefixed(rows).Ok? <==>
      |rows| > 0 && RowPrefix(rows[0]).Ok? && forall i :: 0 <= i < |rows| ==> Readable(rows[i], false)
    ensures ReadPrefixed(rows).Ok? ==>
      ReadPrefixed(rows) == ReadRows(rows, RowPrefix(rows[0]).value, false)
  {
    if |rows| > 0 && RowPrefix(rows[0]).Ok? {
      ReadRowsOk(rows, RowPrefix(rows[0]).value, false);
    }
  }

  /** `float(s) - int(s.split(".")[0])` for decimal text without a minus sign: the digits after
      the '.' over the matching power of ten. */
  lemma DateLessIntegerPart(s: string)
    requires s == [] || s[0] != '-'
    requires PyText.ParseInt(PyText.BeforeDot(s)).Some? && PyText.ParseFloat(s).Some?
    ensures var v, p := PyText.ParseFloat(s).value, PyText.ParseInt(PyText.BeforeDot(s)).value;
      0.0 <= v - p as real < 1.0 && ('.' !in s ==> v == p as real)
  {
    PyText.IntegerPart(s);
    var body := PyText.SplitSign(s).1;
    var whole := PyText.BeforeDot(body);
    var fraction := PyText.FractionDigits(body);
    var w := PyText.ParseDigits(whole).value;
    assert PyText.ParseFloat(s) == Some(PyText.DecimalValue(w, PyText.ParseDigits(fraction).value, |fraction|));
    PyText.DecimalValueBounds(w, fraction);
    if '.' !in s {
      assert forall i :: 0 <= i < |body| ==> body[i] in s;
    }
  }
}
