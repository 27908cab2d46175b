/** The catalog candidate filter: rows with an unknown period are dropped, then every row is
    tested against fixed observability limits in a fixed order, and the surviving rows are
    written out unchanged and in their original order. */
module GetCandidates {
  import opened Wrappers
  import PyText

  const MinDeclinationDeg: int := -40
  /** Right ascension packed as hhmmss.s in base 10. */
  const MinRaValue: real := 0.0
  const MaxRaValue: real := 235959.9
  const MaxPeriodValue: real := 5.0
  /** Magnitudes above this are too faint. */
  const MinBrightness: real := 8.0

  /** One catalog row. `others` stands for the remaining columns, which no filter reads. */
  datatype CatalogRow = CatalogRow(
    decSign: string,  // column "DE-", the declination's sign as text
    decDeg: int,      // column "DEd", the declination's degrees
    raH: int,         // column "RAh"
    raM: int,         // column "RAm"
    raS: real,        // column "RAs"
    period: real,     // column "Period [d]"; 0 means unknown
    minI: real,       // column "MinI"
    minII: real,      // column "MinII"
    others: seq<string>)

  /** The reason printed for a dropped row. */
  datatype Reason = InvalidPeriod | Declination | RightAscension | Period | Brightness

  datatype Rejection = Rejection(row: CatalogRow, reason: Reason)

  /** The rows still in the data frame, and the rejections printed, in iteration order. */
  datatype Outcome = Outcome(kept: seq<CatalogRow>, rejected: seq<Rejection>)

  /** `int(sign + str(deg))` raised a ValueError on this row, which ends the script. */
  datatype FilterError = BadDeclination(row: CatalogRow)

  // ---------------------------------------------------------------------------------------
  // Stage 1: rows with an unknown period

  /** The rows left and the rejections logged by the first stage. */
  function ExcludeRows(rows: seq<CatalogRow>): Outcome
  {
    if rows == [] then Outcome([], [])
    else
      var prior := ExcludeRows(rows[..|rows| - 1]);
      var row := rows[|rows| - 1];
      if row.period == 0.0 then Outcome(prior.kept, prior.rejected + [Rejection(row, InvalidPeriod)])
      else Outcome(prior.kept + [row], prior.rejected)
  }

  /** `exclude_insufficient_entries`: iterates over the rows and drops each one whose period
      is 0 from the data frame, which is rebound after every drop. */
  method ExcludeInsufficientEntries(rows: seq<CatalogRow>) returns (frame: seq<CatalogRow>, log: seq<Rejection>)
    ensures Outcome(frame, log) == ExcludeRows(rows)
  {
    frame, log := rows, [];
    var i := 0;
    while i < |rows|
      invariant 0 <= i <= |rows|
      invariant frame == ExcludeRows(rows[..i]).kept + rows[i..]
      invariant log == ExcludeRows(rows[..i]).rejected
    {
      var row := rows[i];
      var position := |frame| - (|rows| - i);
      ExcludeLoopStep(rows, i, frame, log);
      if row.period == 0.0 {
        log := log + [Rejection(row, InvalidPeriod)];
        frame := frame[..position] + frame[position + 1..];
      }
      i := i + 1;
    }
    assert rows[..|rows|] == rows;
  }

  /** One pass of the loop in `exclude_insufficient_entries` keeps the loop's invariant: the
      frame is the rows kept so far followed by the rows still to come. */
  lemma ExcludeLoopStep(rows: seq<CatalogRow>, i: nat, frame: seq<CatalogRow>, log: seq<Rejection>)
    requires i < |rows|
    requires frame == ExcludeRows(rows[..i]).kept + rows[i..] && log == ExcludeRows(rows[..i]).rejected
    ensures var position, next := |frame| - (|rows| - i), ExcludeRows(rows[..i + 1]);
      0 <= position < |frame| &&
      if rows[i].period == 0.0 then
        frame[..position] + frame[position + 1..] == next.kept + rows[i + 1..] &&
        log + [Rejection(rows[i], InvalidPeriod)] == next.rejected
      else
        frame == next.kept + rows[i + 1..] && log == next.rejected
  {
    assert rows[..i + 1][..i] == rows[..i];
    var kept := ExcludeRows(rows[..i]).kept;
    if rows[i].period == 0.0 {
      DropRow(kept, rows, i, frame);
    } else {
      KeepRow(kept, rows, i);
    }
  }

  // ---------------------------------------------------------------------------------------
  // Stage 2: the constraint chain

  /** The declination in whole degrees, `int(sign + str(deg))`. */
  function DeclinationDeg(sign: string, deg: int): Option<int>
  {
    PyText.ParseInt(sign + PyText.IntToString(deg))
  }

  /** `RAh*10000 + RAm*100 + RAs`. */
  function PackedRa(h: int, m: int, s: real): real
  {
    (h * 10000 + m * 100) as real + s
  }

  /** The first constraint the row breaks, in the order of the elif chain; `None` when it
      breaks none. Both the declination and the packed right ascension are computed before
      the chain, so a declination that does not parse fails the row in every case. */
  function Classify(row: CatalogRow): Result<Option<Reason>, FilterError>
  {
    var dec := DeclinationDeg(row.decSign, row.decDeg);
    var ra := PackedRa(row.raH, row.raM, row.raS);
    if dec.None? then Err(BadDeclination(row))
    else if dec.value < MinDeclinationDeg then Ok(Some(Declination))
    else if ra < MinRaValue || ra > MaxRaValue then Ok(Some(RightAscension))
    else if row.period > MaxPeriodValue then Ok(Some(Period))
    else if row.minI > MinBrightness || row.minII > MinBrightness then Ok(Some(Brightness))
    else Ok(None)
  }

  /** The outcome of the constraint chain for one row. */
  type Verdict = Result<Option<Reason>, FilterError>

  /** The verdict of every row, in order. */
  function Verdicts(rows: seq<CatalogRow>): (v: seq<Verdict>)
    ensures |v| == |rows|
  {
    seq(|rows|, i requires 0 <= i < |rows| => Classify(rows[i]))
  }

  /** The data frame and the log after the loop has acted on each row's verdict in turn, or
      the error of the first row whose declination does not parse. */
  function Run(rows: seq<CatalogRow>, verdicts: seq<Verdict>): Result<Outcome, FilterError>
    requires |verdicts| == |rows|
  {
    if rows == [] then Ok(Outcome([], []))
    else
      var n := |rows| - 1;
      var prior := Run(rows[..n], verdicts[..n]);
      if prior.Err? then prior
      else
        match verdicts[n]
        case Err(e) => Err(e)
        case Ok(None) => Ok(Outcome(prior.value.kept + [rows[n]], prior.value.rejected))
        case Ok(Some(reason)) =>
          Ok(Outcome(prior.value.kept, prior.value.rejected + [Rejection(rows[n], reason)]))
  }

  /** The data frame and the log after the constraint chain. */
  function FilterRows(rows: seq<CatalogRow>): Result<Outcome, FilterError>
  {
    Run(rows, Verdicts(rows))
  }

  /** A non-empty sequence is its first `n - 1` elements followed by its last. */
  lemma InitPlusLast<T>(s: seq<T>)
    requires |s| > 0
    ensures s[..|s| - 1] + [s[|s| - 1]] == s
  {
  }

  /** Once a prefix of the rows has failed, the whole run fails with the same error. */
  lemma {:induction false} RunErrorPersists(rows: seq<CatalogRow>, verdicts: seq<Verdict>, i: nat)
    requires |verdicts| == |rows| && i <= |rows| && Run(rows[..i], verdicts[..i]).Err?
    ensures Run(rows, verdicts) == Run(rows[..i], verdicts[..i])
    decreases |rows| - i
  {
    if i == |rows| {
      assert rows[..i] == rows && verdicts[..i] == verdicts;
    } else {
      var n := |rows| - 1;
      assert rows[..n][..i] == rows[..i] && verdicts[..n][..i] == verdicts[..i];
      RunErrorPersists(rows[..n], verdicts[..n], i);
    }
  }

  /** One more step of the run, on row `i`. */
  lemma RunStep(rows: seq<CatalogRow>, verdicts: seq<Verdict>, i: nat)
    requires |verdicts| == |rows| && i < |rows| && Run(rows[..i], verdicts[..i]).Ok?
    ensures var prior := Run(rows[..i], verdicts[..i]).value;
      Run(rows[..i + 1], verdicts[..i + 1]) ==
        match verdicts[i]
        case Err(e) => Err(e)
        case Ok(None) => Ok(Outcome(prior.kept + [rows[i]], prior.rejected))
        case Ok(Some(reason)) => Ok(Outcome(prior.kept, prior.rejected + [Rejection(rows[i], reason)]))
  {
    assert rows[..i + 1][..i] == rows[..i];
    assert verdicts[..i + 1][..i] == verdicts[..i];
  }

  /** One pass of the loop in `filter_dataframe` keeps the loop's invariant, or meets the
      first row whose declination does not parse. */
  lemma FilterLoopStep(rows: seq<CatalogRow>, verdicts: seq<Verdict>, i: nat, frame: seq<CatalogRow>,
                       log: seq<Rejection>)
    requires |verdicts| == |rows| && i < |rows| && Run(rows[..i], verdicts[..i]).Ok?
    requires frame == Run(rows[..i], verdicts[..i]).value.kept + rows[i..]
    requires log == Run(rows[..i], verdicts[..i]).value.rejected
    ensures var position, next := |frame| - (|rows| - i), Run(rows[..i + 1], verdicts[..i + 1]);
      0 <= position < |frame| &&
      match verdicts[i]
      case Err(e) => next == Err(e)
      case Ok(None) => next.Ok? && frame == next.value.kept + rows[i + 1..] && log == next.value.rejected
      case Ok(Some(reason)) =>
        next.Ok? && frame[..position] + frame[position + 1..] == next.value.kept + rows[i + 1..] &&
        log + [Rejection(rows[i], reason)] == next.value.rejected
  {
    RunStep(rows, verdicts, i);
    var kept := Run(rows[..i], verdicts[..i]).value.kept;
    match verdicts[i] {
      case Err(_) =>
      case Ok(None) => KeepRow(kept, rows, i);
      case Ok(Some(_)) => DropRow(kept, rows, i, frame);
    }
  }

  /** Removing the row at `position` from a data frame made of the rows kept so far, then
      row `i` and the rows still to come. */
  lemma DropRow(kept: seq<CatalogRow>, rows: seq<CatalogRow>, i: nat, frame: seq<CatalogRow>)
    requires i < |rows| && frame == kept + rows[i..]
    ensures var position := |frame| - (|rows| - i);
      position == |kept| && frame[..position] + frame[position + 1..] == kept + rows[i + 1..]
  {
    assert rows[i..] == [rows[i]] + rows[i + 1..];
    assert frame[..|kept|] == kept;
    assert frame[|kept| + 1..] == rows[i + 1..];
  }

  /** Keeping row `i` moves it from the rows to come to the rows kept. */
  lemma KeepRow(kept: seq<CatalogRow>, rows: seq<CatalogRow>, i: nat)
    requires i < |rows|
    ensures kept + rows[i..] == (kept + [rows[i]]) + rows[i + 1..]
  {
    assert rows[i..] == [rows[i]] + rows[i + 1..];
  }

  /** The body of the loop in `filter_dataframe`: the declination and the packed right
      ascension, then the elif chain, which names the first constraint the row breaks. */
  method CheckConstraints(row: CatalogRow) returns (verdict: Verdict)
    ensures verdict == Classify(row)
  {
    var dec := DeclinationDeg(row.decSign, row.decDeg);
    var ra := PackedRa(row.raH, row.raM, row.raS);
    if dec.None? {
      return Err(BadDeclination(row));
    }
    if dec.value < MinDeclinationDeg {
      verdict := Ok(Some(Declination));
    } else if ra < MinRaValue || ra > MaxRaValue {
      verdict := Ok(Some(RightAscension));
    } else if row.period > MaxPeriodValue {
      verdict := Ok(Some(Period));
    } else if row.minI > MinBrightness || row.minII > MinBrightness {
      verdict := Ok(Some(Brightness));
    } else {
      verdict := Ok(None);
    }
  }

  /** `filter_dataframe`: iterates over the rows; each row breaking a constraint is dropped
      from the data frame, which is rebound after every drop, and its reason is logged. */
  method FilterDataframe(rows: seq<CatalogRow>) returns (r: Result<Outcome, FilterError>)
    ensures r == FilterRows(rows)
  {
    ghost var verdicts := Verdicts(rows);
    var frame, log := rows, [];
    var i := 0;
    while i < |rows|
      invariant 0 <= i <= |rows|
      invariant Run(rows[..i], verdicts[..i]).Ok?
      invariant frame == Run(rows[..i], verdicts[..i]).value.kept + rows[i..]
      invariant log == Run(rows[..i], verdicts[..i]).value.rejected
    {
      var row := rows[i];
      var position := |frame| - (|rows| - i);
      var verdict := CheckConstraints(row);
      assert verdict == verdicts[i];
      FilterLoopStep(rows, verdicts, i, frame, log);
      match verdict {
        case Err(e) =>
          RunErrorPersists(rows, verdicts, i + 1);
          return Err(e);
        case Ok(Some(reason)) =>
          log := log + [Rejection(row, reason)];
          frame := frame[..position] + frame[position + 1..];
        case Ok(None) =>
      }
      i := i + 1;
    }
    assert rows[..|rows|] == rows && verdicts[..|rows|] == verdicts;
    assert rows[|rows|..] == [];
    assert frame == FilterRows(rows).value.kept;
    assert log == FilterRows(rows).value.rejected;
    r := Ok(Outcome(frame, log));
  }

  /** `main` without the file I/O: the first stage, then the second. */
  method SelectCandidates(catalog: seq<CatalogRow>) returns (r: Result<seq<CatalogRow>, FilterError>)
    ensures r.Ok? <==> FilterRows(ExcludeRows(catalog).kept).Ok?
    ensures r.Ok? ==> r.value == FilterRows(ExcludeRows(catalog).kept).value.kept
  {
    var frame, _ := ExcludeInsufficientEntries(catalog);
    var filtered := FilterDataframe(frame);
    if filtered.Err? {
      return Err(filtered.error);
    }
    r := Ok(filtered.value.kept);
  }

  // ---------------------------------------------------------------------------------------
  // Properties

  /** A sign glued to the degrees reads back as the signed number of degrees. */
  lemma DeclinationOfSignedDegrees(deg: int)
    requires deg >= 0
    ensures DeclinationDeg("-", deg) == Some(-deg)
    ensures DeclinationDeg("+", deg) == Some(deg)
    ensures DeclinationDeg("", deg) == Some(deg)
  {
    PyText.NatToStringRoundTrip(deg);
    PyText.SignedDigits(PyText.NatToString(deg), deg);
    assert "" + PyText.NatToString(deg) == PyText.NatToString(deg);
  }

  /** A negative number of degrees after a sign gives two signs in a row, which `int()`
      refuses. */
  lemma DoubleSignFails(sign: string, deg: int)
    requires sign == "-" || sign == "+"
    requires deg < 0
    ensures DeclinationDeg(sign, deg) == None
  {
    var text := sign + PyText.IntToString(deg);
    var digits := PyText.SplitSign(text).1;
    assert digits == text[1..];
    assert digits[0] == '-';
    PyText.ParseDigitsRejects(digits, 0);
  }

  /** The declination limit is inclusive: 40 degrees south is kept, 41 is dropped. */
  lemma DeclinationLimit(row: CatalogRow)
    requires row.decSign == "-" && row.decDeg >= 0
    ensures Classify(row) == Ok(Some(Declination)) <==> row.decDeg > 40
  {
    DeclinationOfSignedDegrees(row.decDeg);
  }

  /** The reason logged for a row is the first constraint it breaks in the order declination,
      right ascension, period, brightness: each reason is given exactly when every earlier
      constraint holds and its own does not. */
  lemma FirstBrokenConstraint(row: CatalogRow)
    requires DeclinationDeg(row.decSign, row.decDeg).Some?
    ensures var dec, ra := DeclinationDeg(row.decSign, row.decDeg).value, PackedRa(row.raH, row.raM, row.raS);
      var decOk, raOk, periodOk := dec >= MinDeclinationDeg, MinRaValue <= ra <= MaxRaValue, row.period <= MaxPeriodValue;
      (Classify(row) == Ok(Some(Declination)) <==> !decOk) &&
      (Classify(row) == Ok(Some(RightAscension)) <==> decOk && !raOk) &&
      (Classify(row) == Ok(Some(Period)) <==> decOk && raOk && !periodOk) &&
      (Classify(row) == Ok(Some(Brightness)) <==>
        decOk && raOk && periodOk && (row.minI > MinBrightness || row.minII > MinBrightness)) &&
      Classify(row) != Ok(Some(InvalidPeriod))
  {
  }

  /** A row passes the chain exactly when every constraint holds. */
  lemma AcceptedIff(row: CatalogRow)
    ensures Classify(row) == Ok(None) <==>
      DeclinationDeg(row.decSign, row.decDeg).Some? &&
      DeclinationDeg(row.decSign, row.decDeg).value >= MinDeclinationDeg &&
      MinRaValue <= PackedRa(row.raH, row.raM, row.raS) <= MaxRaValue &&
      row.period <= MaxPeriodValue &&
      row.minI <= MinBrightness && row.minII <= MinBrightness
  {
  }

  /** The packed right ascension orders clock readings as the readings themselves, as long as
      minutes and seconds stay below 100. */
  lemma PackedRaOrder(h1: int, m1: int, s1: real, h2: int, m2: int, s2: real)
    requires 0 <= m1 < 100 && 0 <= m2 < 100
    requires 0.0 <= s1 < 100.0 && 0.0 <= s2 < 100.0
    ensures PackedRa(h1, m1, s1) < PackedRa(h2, m2, s2) <==>
      h1 < h2 || (h1 == h2 && (m1 < m2 || (m1 == m2 && s1 < s2)))
  {
    if h1 < h2 {
      assert (h1 * 10000 + m1 * 100) + 100 <= h2 * 10000 + m2 * 100;
    } else if h2 < h1 {
      assert (h2 * 10000 + m2 * 100) + 100 <= h1 * 10000 + m1 * 100;
    } else if m1 < m2 {
      assert h1 * 10000 + m1 * 100 + 100 <= h2 * 10000 + m2 * 100;
    } else if m2 < m1 {
      assert h2 * 10000 + m2 * 100 + 100 <= h1 * 10000 + m1 * 100;
    }
  }

  /** The first stage drops exactly the rows whose period is 0, keeps the others in their
      order, and logs one rejection per dropped row. */
  lemma {:induction false} ExcludeRowsSelects(rows: seq<CatalogRow>) returns (idx: seq<nat>)
    ensures |idx| == |ExcludeRows(rows).kept|
    ensures forall j, k :: 0 <= j < k < |idx| ==> idx[j] < idx[k]
    ensures forall j :: 0 <= j < |idx| ==> idx[j] < |rows| && ExcludeRows(rows).kept[j] == rows[idx[j]]
    ensures forall p :: 0 <= p < |rows| ==> (p in idx <==> rows[p].period != 0.0)
    ensures forall x :: x in ExcludeRows(rows).rejected ==> x.reason == InvalidPeriod && x.row.period == 0.0
    ensures |ExcludeRows(rows).kept| + |ExcludeRows(rows).rejected| == |rows|
  {
    if rows == [] {
      idx := [];
    } else {
      var n := |rows| - 1;
      var front := rows[..n];
      var prior := ExcludeRowsSelects(front);
      assert forall p :: 0 <= p < n ==> front[p] == rows[p];
      if rows[n].period == 0.0 {
        idx := prior;
      } else {
        idx := prior + [n];
      }
    }
  }

  /** Rows that all have a period pass the first stage untouched. */
  lemma {:induction false} ExcludeNothing(rows: seq<CatalogRow>)
    requires forall j :: 0 <= j < |rows| ==> rows[j].period != 0.0
    ensures ExcludeRows(rows) == Outcome(rows, [])
  {
    if rows != [] {
      ExcludeNothing(rows[..|rows| - 1]);
      assert rows[..|rows| - 1] + [rows[|rows| - 1]] == rows;
    }
  }

  /** Dropping rows with a period of 0 a second time changes nothing. */
  lemma ExcludeRowsIdempotent(rows: seq<CatalogRow>)
    ensures ExcludeRows(ExcludeRows(rows).kept) == Outcome(ExcludeRows(rows).kept, [])
  {
    var idx := ExcludeRowsSelects(rows);
    var kept := ExcludeRows(rows).kept;
    forall j | 0 <= j < |kept|
      ensures kept[j].period != 0.0
    {
      assert idx[j] in idx;
    }
    ExcludeNothing(kept);
  }

  /** The run fails exactly when some verdict is an error. */
  lemma {:induction false} RunOkIff(rows: seq<CatalogRow>, verdicts: seq<Verdict>)
    requires |verdicts| == |rows|
    ensures Run(rows, verdicts).Ok? <==> forall p :: 0 <= p < |rows| ==> verdicts[p].Ok?
  {
    if rows != [] {
      var n := |rows| - 1;
      RunOkIff(rows[..n], verdicts[..n]);
      assert forall p :: 0 <= p < n ==> verdicts[..n][p] == verdicts[p];
    }
  }

  /** The second stage fails exactly when some declination does not parse. */
  lemma FilterRowsOkIff(rows: seq<CatalogRow>)
    ensures FilterRows(rows).Ok? <==>
      forall p :: 0 <= p < |rows| ==> DeclinationDeg(rows[p].decSign, rows[p].decDeg).Some?
  {
    var verdicts := Verdicts(rows);
    RunOkIff(rows, verdicts);
    forall p | 0 <= p < |rows|
      ensures verdicts[p].Ok? <==> DeclinationDeg(rows[p].decSign, rows[p].decDeg).Some?
    {
      ClassifyOk(rows[p]);
    }
  }

  /** A row fails the chain exactly when its declination does not parse. */
  lemma ClassifyOk(row: CatalogRow)
    ensures Classify(row).Ok? <==> DeclinationDeg(row.decSign, row.decDeg).Some?
  {
  }

  /** A successful run keeps exactly the rows whose verdict is `Ok(None)`, in their order, and
      logs every other row with its reason. */
  lemma {:induction false} RunSelects(rows: seq<CatalogRow>, verdicts: seq<Verdict>) returns (idx: seq<nat>)
    requires |verdicts| == |rows| && Run(rows, verdicts).Ok?
    ensures |idx| == |Run(rows, verdicts).value.kept|
    ensures forall j, k :: 0 <= j < k < |idx| ==> idx[j] < idx[k]
    ensures forall j :: 0 <= j < |idx| ==>
      idx[j] < |rows| && Run(rows, verdicts).value.kept[j] == rows[idx[j]]
    ensures forall p :: 0 <= p < |rows| ==> (p in idx <==> verdicts[p] == Ok(None))
    ensures forall x :: x in Run(rows, verdicts).value.rejected ==>
      exists p :: 0 <= p < |rows| && rows[p] == x.row && verdicts[p] == Ok(Some(x.reason))
    ensures |Run(rows, verdicts).value.kept| + |Run(rows, verdicts).value.rejected| == |rows|
  {
    if rows == [] {
      idx := [];
    } else {
      var n := |rows| - 1;
      var front, earlier := rows[..n], verdicts[..n];
      assert Run(front, earlier).Ok?;
      var prior := RunSelects(front, earlier);
      assert forall p :: 0 <= p < n ==> front[p] == rows[p] && earlier[p] == verdicts[p];
      if verdicts[n] == Ok(None) {
        idx := prior + [n];
      } else {
        idx := prior;
      }
    }
  }

  /** When it succeeds, the second stage keeps exactly the rows that break no constraint, in
      their order, and logs every other row with the first constraint it breaks. */
  lemma FilterRowsSelects(rows: seq<CatalogRow>) returns (idx: seq<nat>)
    requires FilterRows(rows).Ok?
    ensures |idx| == |FilterRows(rows).value.kept|
    ensures forall j, k :: 0 <= j < k < |idx| ==> idx[j] < idx[k]
    ensures forall j :: 0 <= j < |idx| ==>
      idx[j] < |rows| && FilterRows(rows).value.kept[j] == rows[idx[j]]
    ensures forall p :: 0 <= p < |rows| ==> (p in idx <==> Classify(rows[p]) == Ok(None))
    ensures forall x :: x in FilterRows(rows).value.rejected ==> Classify(x.row) == Ok(Some(x.reason))
    ensures |FilterRows(rows).value.kept| + |FilterRows(rows).value.rejected| == |rows|
  {
    var verdicts := Verdicts(rows);
    idx := RunSelects(rows, verdicts);
    assert forall p :: 0 <= p < |rows| ==> verdicts[p] == Classify(rows[p]);
  }

  /** Rows whose verdicts are all `Ok(None)` come through the run untouched. */
  lemma {:induction false} RunNothing(rows: seq<CatalogRow>, verdicts: seq<Verdict>)
    requires |verdicts| == |rows|
    requires forall j :: 0 <= j < |rows| ==> verdicts[j] == Ok(None)
    ensures Run(rows, verdicts) == Ok(Outcome(rows, []))
  {
    if rows != [] {
      var n := |rows| - 1;
      assert forall j :: 0 <= j < n ==> verdicts[..n][j] == Ok(None);
      RunNothing(rows[..n], verdicts[..n]);
      assert verdicts[n] == Ok(None);
      assert Run(rows, verdicts) == Ok(Outcome(rows[..n] + [rows[n]], []));
      InitPlusLast(rows);
    }
  }

  /** Filtering the candidates a second time changes nothing. */
  lemma FilterRowsIdempotent(rows: seq<CatalogRow>)
    requires FilterRows(rows).Ok?
    ensures FilterRows(FilterRows(rows).value.kept) == Ok(Outcome(FilterRows(rows).value.kept, []))
  {
    var idx := FilterRowsSelects(rows);
    var kept := FilterRows(rows).value.kept;
    forall j | 0 <= j < |kept|
      ensures Verdicts(kept)[j] == Ok(None)
    {
      assert idx[j] in idx;
    }
    RunNothing(kept, Verdicts(kept));
  }

  /** Every candidate written out comes from the catalog and has a known period of at most 5
      days, a declination of at least 40 degrees south, a right ascension in range and both
      minima at most magnitude 8. */
  lemma CandidatesMeetConstraints(catalog: seq<CatalogRow>, row: CatalogRow)
    requires FilterRows(ExcludeRows(catalog).kept).Ok?
    requires row in FilterRows(ExcludeRows(catalog).kept).value.kept
    ensures row in catalog
    ensures row.period != 0.0 && row.period <= MaxPeriodValue
    ensures DeclinationDeg(row.decSign, row.decDeg).Some?
    ensures DeclinationDeg(row.decSign, row.decDeg).value >= MinDeclinationDeg
    ensures MinRaValue <= PackedRa(row.raH, row.raM, row.raS) <= MaxRaValue
    ensures row.minI <= MinBrightness && row.minII <= MinBrightness
  {
    var first := ExcludeRows(catalog).kept;
    var idx1 := ExcludeRowsSelects(catalog);
    var idx2 := FilterRowsSelects(first);
    var kept := FilterRows(first).value.kept;
    var j :| 0 <= j < |kept| && kept[j] == row;
    assert idx2[j] in idx2;
    var k := idx2[j];
    assert first[k] == row;
    assert idx1[k] in idx1;
    assert catalog[idx1[k]] == row;
    AcceptedIff(row);
  }
}
