/**
 * The Fourier analyses of an LTspice log: the `N-Period` blocks that
 * `LTSpiceLogReader.__init__` (spicelib/log/ltsteps.py) reads into
 * `FourierData` records, one list of records per signal.
 *
 * A block is the `N-Period=...` line, the signal line (`... of V(out)`), the
 * DC line (`DC component:...`), a blank line, two table header lines, and the
 * harmonic table, which ends at the first line that is blank once its line
 * terminators are stripped (end of file reads as such a line).
 *
 * Every line of a block is used stripped of its terminators, so the functions
 * here read `rows`, the log's lines already stripped (`StrippedLines`); a row
 * past the last one reads as "", as `readline` does at end of file.
 */
module FourierBlocks {
  import opened Wrappers
  import opened Text
  import opened Values
  import opened Tables
  import opened Harmonics

  const PeriodsTag := "N-Period"
  const TotalHarmonic := "Total Harmonic"
  const PartialHarmonic := "Partial Harmonic"
  const SignalSeparator := " of "

  /** `fourier`: the analyses of each signal, in the order they were read. */
  type Analyses = Table<string, seq<FourierData>>

  /** What the table loop has gathered: the distortion figures and the harmonics so far. */
  datatype TableScan = TableScan(phd: Option<real>, thd: Option<real>, harmonics: seq<HarmonicData>)

  const NoTable := TableScan(None, None, [])

  /** What one line of the harmonic table does: end the table, or continue with what it added. */
  datatype TableStep = Ends | Continues(scan: TableScan)

  /**
   * One pass of the table loop on a stripped line: a `Total Harmonic` line
   * sets the THD, a `Partial Harmonic` line the PHD, a blank line ends the
   * table, and any other line is parsed as one more harmonic.
   */
  function TableLine(line: string, scan: TableScan, conv: Conversions): (r: Result<TableStep, Raised>)
    ensures r.Success? && r.value.Ends? <==> line == ""
  {
    if StartsWith(line, TotalHarmonic) then
      var thd :- conv.figure(line);
      Success(Continues(scan.(thd := Some(thd))))
    else if StartsWith(line, PartialHarmonic) then
      var phd :- conv.figure(line);
      Success(Continues(scan.(phd := Some(phd))))
    else if line == "" then Success(Ends)
    else
      var h :- FromLine(line, conv);
      Success(Continues(scan.(harmonics := scan.harmonics + [h])))
  }

  /**
   * The harmonic-table loop from line `k`, with what it has gathered so far;
   * the second component is the index of the line that ended the table.
   */
  function ScanTable(rows: seq<string>, k: nat, scan: TableScan, conv: Conversions)
    : (r: Result<(TableScan, nat), Raised>)
    ensures r.Success? ==> k <= r.value.1 && Readline(rows, r.value.1) == ""
    decreases |rows| - k
  {
    var line := Readline(rows, k);
    var step :- TableLine(line, scan, conv);
    match step
    case Ends => Success((scan, k))
    case Continues(next) => ScanTable(rows, k + 1, next, conv)
  }

  /** The periods field: `all` stands for -1, anything else is read as a float. */
  function Periods(text: string, conv: Conversions): (r: Result<real, Raised>)
    ensures text == "all" ==> r == Success(-1.0)
    ensures text != "all" ==> r == FloatOf(text, conv)
  {
    if text == "all" then Success(-1.0) else FloatOf(text, conv)
  }

  /**
   * The block whose `N-Period` line is line `i`, read while `stepCount` steps
   * have been seen; also gives the index of the line that ended its table.
   */
  function FourierBlock(rows: seq<string>, i: nat, stepCount: int, conv: Conversions)
    : (r: Result<(FourierData, nat), Raised>)
    ensures r.Success? ==> var fd := r.value.0;
      && fd.step == stepCount - 1
      && fd.signal == Last(Split(Readline(rows, i + 1), SignalSeparator))
      && Periods(Last(Split(Readline(rows, i), "=")), conv) == Success(fd.nPeriods)
      && FloatOf(Last(Split(Readline(rows, i + 2), ":")), conv) == Success(fd.dcComponent)
      && ScanTable(rows, i + 6, NoTable, conv) == Success((TableScan(fd.phd, fd.thd, fd.harmonics), r.value.1))
  {
    var periods :- Periods(Last(Split(Readline(rows, i), "=")), conv);
    var signal := Last(Split(Readline(rows, i + 1), SignalSeparator));
    var dc :- FloatOf(Last(Split(Readline(rows, i + 2), ":")), conv);
    var table :- ScanTable(rows, i + 6, NoTable, conv);
    var scan := table.0;
    Success((FourierData(signal, periods, dc, scan.phd, scan.thd, scan.harmonics, stepCount - 1), table.1))
  }

  /** One pass of the table loop. */
  method ReadTableLine(line: string, scan: TableScan, conv: Conversions) returns (r: Result<TableStep, Raised>)
    ensures r == TableLine(line, scan, conv)
  {
    if StartsWith(line, TotalHarmonic) {
      var thd := conv.figure(line);
      if thd.Failure? {
        return Failure(thd.error);
      }
      return Success(Continues(scan.(thd := Some(thd.value))));
    } else if StartsWith(line, PartialHarmonic) {
      var phd := conv.figure(line);
      if phd.Failure? {
        return Failure(phd.error);
      }
      return Success(Continues(scan.(phd := Some(phd.value))));
    } else if line == "" {
      return Success(Ends);
    }
    var h := FromLine(line, conv);
    if h.Failure? {
      return Failure(h.error);
    }
    return Success(Continues(scan.(harmonics := scan.harmonics + [h.value])));
  }

  /** The harmonic-table loop, reading lines until the blank one. */
  method ReadHarmonicTable(rows: seq<string>, k: nat, conv: Conversions) returns (r: Result<(TableScan, nat), Raised>)
    ensures r == ScanTable(rows, k, NoTable, conv)
  {
    var j := k;
    var scan := NoTable;
    while true
      invariant k <= j
      invariant ScanTable(rows, k, NoTable, conv) == ScanTable(rows, j, scan, conv)
      decreases |rows| - j
    {
      var line := Readline(rows, j);
      var step := ReadTableLine(line, scan, conv);
      if step.Failure? {
        return Failure(step.error);
      }
      if step.value.Ends? {
        return Success((scan, j));
      }
      assert j < |rows|;
      scan := step.value.scan;
      j := j + 1;
    }
  }

  /** One `N-Period` block: its header lines, then the table. */
  method ReadFourierBlock(rows: seq<string>, i: nat, stepCount: int, conv: Conversions)
    returns (r: Result<(FourierData, nat), Raised>)
    ensures r == FourierBlock(rows, i, stepCount, conv)
  {
    var periodsText := Last(Split(Readline(rows, i), "="));
    var periods: real;
    if periodsText == "all" {
      periods := -1.0;
    } else {
      var p := FloatOf(periodsText, conv);
      if p.Failure? {
        return Failure(p.error);
      }
      periods := p.value;
    }
    var signal := Last(Split(Readline(rows, i + 1), SignalSeparator));
    var dc := FloatOf(Last(Split(Readline(rows, i + 2), ":")), conv);
    if dc.Failure? {
      return Failure(dc.error);
    }
    var table := ReadHarmonicTable(rows, i + 6, conv);
    if table.Failure? {
      return Failure(table.error);
    }
    var scan := table.value.0;
    return Success((FourierData(signal, periods, dc.value, scan.phd, scan.thd, scan.harmonics, stepCount - 1),
                    table.value.1));
  }

  // ----- The table read independently of the loop -----

  predicate IsFigure(row: string) {
    StartsWith(row, TotalHarmonic) || StartsWith(row, PartialHarmonic)
  }

  /** The last of the rows `k` up to (not including) `e` that starts with `prefix`, if any. */
  function LastWith(rows: seq<string>, k: nat, e: nat, prefix: string): (r: Option<string>)
    ensures r.Some? ==> StartsWith(r.value, prefix)
    decreases e - k
  {
    if k >= e then None
    else match LastWith(rows, k + 1, e, prefix)
      case Some(l) => Some(l)
      case None => if StartsWith(Readline(rows, k), prefix) then Some(Readline(rows, k)) else None
  }

  /**
   * The harmonics of rows `k` up to (not including) `e`: every row that is not
   * a distortion figure, parsed, in order.
   */
  function HarmonicRows(rows: seq<string>, k: nat, e: nat, conv: Conversions): (r: Result<seq<HarmonicData>, Raised>)
    ensures r.Success? && k <= e ==> |r.value| <= e - k
    decreases e - k
  {
    if k >= e then Success([])
    else if IsFigure(Readline(rows, k)) then HarmonicRows(rows, k + 1, e, conv)
    else
      var h :- FromLine(Readline(rows, k), conv);
      var rest :- HarmonicRows(rows, k + 1, e, conv);
      Success([h] + rest)
  }

  /** No row is both a `Total Harmonic` and a `Partial Harmonic` row. */
  lemma FiguresDisjoint(line: string)
    ensures !(StartsWith(line, TotalHarmonic) && StartsWith(line, PartialHarmonic))
  {
    if StartsWith(line, TotalHarmonic) {
      assert line[0] == TotalHarmonic[0] != PartialHarmonic[0];
    }
  }

  /** One pass of the table loop, as the scan of the whole table sees it. */
  lemma ScanStep(rows: seq<string>, k: nat, scan: TableScan, conv: Conversions)
    requires ScanTable(rows, k, scan, conv).Success?
    ensures TableLine(Readline(rows, k), scan, conv).Success?
    ensures TableLine(Readline(rows, k), scan, conv).value.Ends? ==>
      ScanTable(rows, k, scan, conv) == Success((scan, k))
    ensures TableLine(Readline(rows, k), scan, conv).value.Continues? ==>
      && k < |rows|
      && ScanTable(rows, k, scan, conv) == ScanTable(rows, k + 1, TableLine(Readline(rows, k), scan, conv).value.scan, conv)
  {
  }

  /** A table read successfully ends at its first blank row. */
  lemma {:induction false} TableEnd(rows: seq<string>, k: nat, scan: TableScan, conv: Conversions)
    requires ScanTable(rows, k, scan, conv).Success?
    ensures var e := ScanTable(rows, k, scan, conv).value.1;
      forall j :: k <= j < e ==> Readline(rows, j) != ""
    decreases |rows| - k
  {
    ScanStep(rows, k, scan, conv);
    var step := TableLine(Readline(rows, k), scan, conv).value;
    if step.Continues? {
      TableEnd(rows, k + 1, step.scan, conv);
    }
  }

  /**
   * What a row that continues the table contributes: a figure row sets its
   * figure and adds no harmonic; any other row adds its harmonic at the end.
   */
  lemma LineEffect(line: string, scan: TableScan, next: TableScan, conv: Conversions)
    requires TableLine(line, scan, conv) == Success(Continues(next))
    ensures StartsWith(line, TotalHarmonic) ==>
      next == scan.(thd := Some(conv.figure(line).value)) && conv.figure(line).Success?
    ensures StartsWith(line, PartialHarmonic) ==>
      next == scan.(phd := Some(conv.figure(line).value)) && conv.figure(line).Success?
    ensures !IsFigure(line) ==>
      FromLine(line, conv).Success? && next == scan.(harmonics := scan.harmonics + [FromLine(line, conv).value])
  {
    FiguresDisjoint(line);
  }

  /** A row that continues the table adds its harmonic, if it is one, in front of the later rows'. */
  lemma HarmonicsStep(rows: seq<string>, k: nat, e: nat, scan: TableScan, next: TableScan, conv: Conversions)
    requires k < e
    requires IsFigure(Readline(rows, k)) ==> next.harmonics == scan.harmonics
    requires !IsFigure(Readline(rows, k)) ==>
      FromLine(Readline(rows, k), conv).Success? && next.harmonics == scan.harmonics + [FromLine(Readline(rows, k), conv).value]
    requires HarmonicRows(rows, k + 1, e, conv).Success?
    ensures HarmonicRows(rows, k, e, conv).Success?
    ensures next.harmonics + HarmonicRows(rows, k + 1, e, conv).value
         == scan.harmonics + HarmonicRows(rows, k, e, conv).value
  {
    var line := Readline(rows, k);
    var rest := HarmonicRows(rows, k + 1, e, conv).value;
    if !IsFigure(line) {
      var h := FromLine(line, conv).value;
      assert HarmonicRows(rows, k, e, conv) == Success([h] + rest);
      ConcatAssoc(scan.harmonics, [h], rest);
    }
  }

  /** Its harmonics are the non-figure rows before the blank one, parsed, in file order. */
  lemma {:induction false} TableHarmonics(rows: seq<string>, k: nat, scan: TableScan, conv: Conversions)
    requires ScanTable(rows, k, scan, conv).Success?
    ensures HarmonicRows(rows, k, ScanTable(rows, k, scan, conv).value.1, conv).Success?
    ensures ScanTable(rows, k, scan, conv).value.0.harmonics
         == scan.harmonics + HarmonicRows(rows, k, ScanTable(rows, k, scan, conv).value.1, conv).value
    decreases |rows| - k
  {
    ScanStep(rows, k, scan, conv);
    var step := TableLine(Readline(rows, k), scan, conv).value;
    if step.Continues? {
      TableHarmonics(rows, k + 1, step.scan, conv);
      LineEffect(Readline(rows, k), scan, step.scan, conv);
      HarmonicsStep(rows, k, ScanTable(rows, k, scan, conv).value.1, scan, step.scan, conv);
    }
  }

  /**
   * Its THD comes from the last `Total Harmonic` row before the blank one, and
   * stays as it was when there is none.
   */
  lemma {:induction false} TableThd(rows: seq<string>, k: nat, scan: TableScan, conv: Conversions)
    requires ScanTable(rows, k, scan, conv).Success?
    ensures var (s, e) := ScanTable(rows, k, scan, conv).value;
      var total := LastWith(rows, k, e, TotalHarmonic);
      && (total.None? ==> s.thd == scan.thd)
      && (total.Some? ==> s.thd.Some? && conv.figure(total.value) == Success(s.thd.value))
    decreases |rows| - k
  {
    ScanStep(rows, k, scan, conv);
    var step := TableLine(Readline(rows, k), scan, conv).value;
    if step.Continues? {
      TableThd(rows, k + 1, step.scan, conv);
    }
  }

  /** The same for the PHD and the last `Partial Harmonic` row. */
  lemma {:induction false} TablePhd(rows: seq<string>, k: nat, scan: TableScan, conv: Conversions)
    requires ScanTable(rows, k, scan, conv).Success?
    ensures var (s, e) := ScanTable(rows, k, scan, conv).value;
      var partial := LastWith(rows, k, e, PartialHarmonic);
      && (partial.None? ==> s.phd == scan.phd)
      && (partial.Some? ==> s.phd.Some? && conv.figure(partial.value) == Success(s.phd.value))
    decreases |rows| - k
  {
    ScanStep(rows, k, scan, conv);
    FiguresDisjoint(Readline(rows, k));
    var step := TableLine(Readline(rows, k), scan, conv).value;
    if step.Continues? {
      TablePhd(rows, k + 1, step.scan, conv);
    }
  }

  /**
   * An analysis read from a block is tagged with the last step seen
   * (`stepCount - 1`); its signal is the text after the last ` of ` of the
   * signal line, which holds no further ` of `; and `all` periods read as -1.
   */
  lemma BlockHeader(rows: seq<string>, i: nat, stepCount: int, conv: Conversions)
    requires FourierBlock(rows, i, stepCount, conv).Success?
    ensures FourierBlock(rows, i, stepCount, conv).value.0.step == stepCount - 1
    ensures AfterLast(Readline(rows, i + 1), SignalSeparator, FourierBlock(rows, i, stepCount, conv).value.0.signal)
    ensures forall j :: !OccursAt(FourierBlock(rows, i, stepCount, conv).value.0.signal, SignalSeparator, j)
    ensures Last(Split(Readline(rows, i), "=")) == "all" ==> FourierBlock(rows, i, stepCount, conv).value.0.nPeriods == -1.0
  {
    LastPiece(Readline(rows, i + 1), SignalSeparator);
  }

  /**
   * Its table is the rows from the sixth line after the `N-Period` line up
   * to the first blank one; its harmonics are the non-figure rows of the
   * table, parsed, in file order; and its THD and PHD come from the table's
   * last `Total Harmonic` and `Partial Harmonic` rows, None without one.
   */
  lemma BlockTable(rows: seq<string>, i: nat, stepCount: int, conv: Conversions, fd: FourierData, e: nat)
    requires FourierBlock(rows, i, stepCount, conv) == Success((fd, e))
    ensures i + 6 <= e && Readline(rows, e) == ""
    ensures forall j :: i + 6 <= j < e ==> Readline(rows, j) != ""
    ensures HarmonicRows(rows, i + 6, e, conv) == Success(fd.harmonics)
    ensures var total := LastWith(rows, i + 6, e, TotalHarmonic);
      && (total.None? ==> fd.thd.None?)
      && (total.Some? ==> fd.thd.Some? && conv.figure(total.value) == Success(fd.thd.value))
    ensures var partial := LastWith(rows, i + 6, e, PartialHarmonic);
      && (partial.None? ==> fd.phd.None?)
      && (partial.Some? ==> fd.phd.Some? && conv.figure(partial.value) == Success(fd.phd.value))
  {
    TableOf(rows, i + 6, conv, TableScan(fd.phd, fd.thd, fd.harmonics), e);
  }

  /** The same facts, about the table read from row `k` on. */
  lemma TableOf(rows: seq<string>, k: nat, conv: Conversions, s: TableScan, e: nat)
    requires ScanTable(rows, k, NoTable, conv) == Success((s, e))
    ensures k <= e && Readline(rows, e) == ""
    ensures forall j :: k <= j < e ==> Readline(rows, j) != ""
    ensures HarmonicRows(rows, k, e, conv) == Success(s.harmonics)
    ensures var total := LastWith(rows, k, e, TotalHarmonic);
      && (total.None? ==> s.thd.None?)
      && (total.Some? ==> s.thd.Some? && conv.figure(total.value) == Success(s.thd.value))
    ensures var partial := LastWith(rows, k, e, PartialHarmonic);
      && (partial.None? ==> s.phd.None?)
      && (partial.Some? ==> s.phd.Some? && conv.figure(partial.value) == Success(s.phd.value))
  {
    TableEnd(rows, k, NoTable, conv);
    TableHarmonics(rows, k, NoTable, conv);
    TableThd(rows, k, NoTable, conv);
    TablePhd(rows, k, NoTable, conv);
    var h := HarmonicRows(rows, k, e, conv).value;
    assert [] + h == h;
  }
}
