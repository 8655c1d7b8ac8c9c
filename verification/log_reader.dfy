/**
 * `LTSpiceLogReader.__init__` (spicelib/log/ltsteps.py): the reader of an
 * LTspice simulation log. A first loop reads the preamble line by line:
 * `N-Period` blocks become Fourier analyses, `.step` lines count the runs and
 * record the stepped parameters, and, while no run has been seen, lines that
 * the stepless-measurement pattern recognises become one-value columns of
 * the dataset. A line that starts with `Measurement:` either ends the
 * reading (when measurements are not wanted) or hands over to the
 * measurement section (module Measurements).
 *
 * The file is given as the sequence of what `readline` returns, each line
 * with its terminator; "" is end of file. The stepless-measurement regular
 * expression is a given function (`Matcher`) that yields the named groups of
 * a match; the state the base class sets up (`stepset`, `dataset`,
 * `step_count`) is the reader's initial `LogData`.
 */
module LogReader {
  import opened Wrappers
  import opened Text
  import opened Values
  import opened Tables
  import opened Harmonics
  import opened FourierBlocks
  import opened Measurements

  const StepTag := ".step"
  const MeasurementStart := "Measurement:"

  // ----- Stepless measurements -----

  /** The optional tail of a stepless measurement: ` FROM a TO b`, ` at t`, or nothing. */
  datatype Suffix = NoSuffix | FromTo(from: string, to: string) | At(at: string)

  /** The groups of a match: `name`, `value`, and the suffix's `from`/`to` or `at`. */
  datatype SteplessMatch = SteplessMatch(name: string, value: string, suffix: Suffix)

  /** `regx.match(line)`: the groups when the line is a stepless measurement. */
  type Matcher = string -> Option<SteplessMatch>

  /** True when the match has a non-empty `from` group. */
  predicate HasFrom(m: SteplessMatch) {
    m.suffix.FromTo? && m.suffix.from != ""
  }

  /** True when the match has no non-empty `from` group but a non-empty `at` group. */
  predicate HasAt(m: SteplessMatch) {
    !HasFrom(m) && m.suffix.At? && m.suffix.at != ""
  }

  /**
   * The headers and the texts of a match: the name and the value, then
   * `<name>_FROM` and `<name>_TO` when there is a `from`, else `<name>_at`
   * when there is an `at`.
   */
  function SteplessColumns(m: SteplessMatch): seq<(string, string)> {
    if HasFrom(m) then [(m.name, m.value), (m.name + "_FROM", m.suffix.from), (m.name + "_TO", m.suffix.to)]
    else if HasAt(m) then [(m.name, m.value), (m.name + "_at", m.suffix.at)]
    else [(m.name, m.value)]
  }

  /** `dataset[title] = [try_convert_value(text)]` for the columns from `k` on. */
  function PutColumns(dataset: Dataset, cols: seq<(string, string)>, k: nat, conv: Conversions): Dataset
    decreases |cols| - k
  {
    if k >= |cols| then dataset
    else PutColumns(dataset.Put(Some(cols[k].0), [conv.convert(cols[k].1)]), cols, k + 1, conv)
  }

  /** What a line does to the dataset when no run has been seen: nothing unless the pattern matches. */
  function Stepless(dataset: Dataset, found: Option<SteplessMatch>, conv: Conversions): Dataset {
    match found
    case None => dataset
    case Some(m) => PutColumns(dataset, SteplessColumns(m), 0, conv)
  }

  /** The three titles a match can write are pairwise different. */
  lemma TitlesDiffer(name: string)
    ensures name != name + "_FROM" && name != name + "_TO" && name != name + "_at"
    ensures name + "_FROM" != name + "_TO"
  {
    assert (name + "_FROM")[|name| + 1] == 'F';
    assert (name + "_TO")[|name| + 1] == 'T';
  }

  /**
   * A stepless measurement stores one-element columns: the value under the
   * name; with a non-empty `from`, also the `from` and `to` texts under
   * `<name>_FROM` and `<name>_TO`; otherwise, with a non-empty `at`, the
   * `at` text under `<name>_at`. Every other key keeps its column, so a
   * measurement of the same name read later replaces the earlier one.
   */
  lemma SteplessEffect(dataset: Dataset, m: SteplessMatch, conv: Conversions)
    ensures dataset.Valid() ==> Stepless(dataset, Some(m), conv).Valid()
    ensures Stepless(dataset, Some(m), conv).Get(Some(m.name)) == Some([conv.convert(m.value)])
    ensures HasFrom(m) ==>
      && Stepless(dataset, Some(m), conv).Get(Some(m.name + "_FROM")) == Some([conv.convert(m.suffix.from)])
      && Stepless(dataset, Some(m), conv).Get(Some(m.name + "_TO")) == Some([conv.convert(m.suffix.to)])
    ensures HasAt(m) ==> Stepless(dataset, Some(m), conv).Get(Some(m.name + "_at")) == Some([conv.convert(m.suffix.at)])
    ensures forall key ::
      && key != Some(m.name)
      && (HasFrom(m) ==> key != Some(m.name + "_FROM") && key != Some(m.name + "_TO"))
      && (HasAt(m) ==> key != Some(m.name + "_at"))
      ==> Stepless(dataset, Some(m), conv).Get(key) == dataset.Get(key)
  {
    TitlesDiffer(m.name);
    if HasFrom(m) {
      SteplessFrom(dataset, m, conv);
    } else if HasAt(m) {
      SteplessAt(dataset, m, conv);
    } else {
      SteplessPlain(dataset, m, conv);
    }
  }

  /** With a `from`: the name, `<name>_FROM` and `<name>_TO` are stored in that order. */
  lemma SteplessFrom(dataset: Dataset, m: SteplessMatch, conv: Conversions)
    requires HasFrom(m)
    ensures Stepless(dataset, Some(m), conv)
      == dataset.Put(Some(m.name), [conv.convert(m.value)])
                .Put(Some(m.name + "_FROM"), [conv.convert(m.suffix.from)])
                .Put(Some(m.name + "_TO"), [conv.convert(m.suffix.to)])
  {
    var cols := SteplessColumns(m);
    var d1 := dataset.Put(Some(m.name), [conv.convert(m.value)]);
    var d2 := d1.Put(Some(m.name + "_FROM"), [conv.convert(m.suffix.from)]);
    var d3 := d2.Put(Some(m.name + "_TO"), [conv.convert(m.suffix.to)]);
    assert PutColumns(dataset, cols, 0, conv) == PutColumns(d1, cols, 1, conv);
    assert PutColumns(d1, cols, 1, conv) == PutColumns(d2, cols, 2, conv);
    assert PutColumns(d2, cols, 2, conv) == PutColumns(d3, cols, 3, conv) == d3;
  }

  /** With an `at` and no `from`: the name, then `<name>_at`. */
  lemma SteplessAt(dataset: Dataset, m: SteplessMatch, conv: Conversions)
    requires HasAt(m)
    ensures Stepless(dataset, Some(m), conv)
      == dataset.Put(Some(m.name), [conv.convert(m.value)]).Put(Some(m.name + "_at"), [conv.convert(m.suffix.at)])
  {
    var cols := SteplessColumns(m);
    var d1 := dataset.Put(Some(m.name), [conv.convert(m.value)]);
    var d2 := d1.Put(Some(m.name + "_at"), [conv.convert(m.suffix.at)]);
    assert PutColumns(dataset, cols, 0, conv) == PutColumns(d1, cols, 1, conv);
    assert PutColumns(d1, cols, 1, conv) == PutColumns(d2, cols, 2, conv) == d2;
  }

  /** With neither: the name alone. */
  lemma SteplessPlain(dataset: Dataset, m: SteplessMatch, conv: Conversions)
    requires !HasFrom(m) && !HasAt(m)
    ensures Stepless(dataset, Some(m), conv) == dataset.Put(Some(m.name), [conv.convert(m.value)])
  {
    var cols := SteplessColumns(m);
    var d1 := dataset.Put(Some(m.name), [conv.convert(m.value)]);
    assert PutColumns(dataset, cols, 0, conv) == PutColumns(d1, cols, 1, conv);
    assert PutColumns(d1, cols, 1, conv) == d1;
  }

  // ----- Step lines -----

  /**
   * `for tok in tokens[1:]: lhs, rhs = tok.split("=")`, then `rhs` converted
   * is appended to `stepset[lhs]`, from parameter `k` on. A parameter that
   * does not split into exactly two parts raises ValueError.
   */
  function StepParams(stepset: Table<string, seq<Value>>, params: seq<string>, k: nat, conv: Conversions)
    : Result<Table<string, seq<Value>>, Raised>
    decreases |params| - k
  {
    if k >= |params| then Success(stepset)
    else
      var (lhs, rhs) :- KeyValue(params[k]);
      StepParams(AppendTo(stepset, lhs, conv.convert(rhs)), params, k + 1, conv)
  }

  /** The converted values that parameters `k` on assign to `key`, in order. */
  function ValuesFor(params: seq<string>, k: nat, key: string, conv: Conversions): seq<Value>
    decreases |params| - k
  {
    if k >= |params| then []
    else
      var kv := KeyValue(params[k]);
      (if kv.Success? && kv.value.0 == key then [conv.convert(kv.value.1)] else []) + ValuesFor(params, k + 1, key, conv)
  }

  /** A list that may be absent, absent read as empty. */
  function Listed(o: Option<seq<Value>>): seq<Value> {
    if o.Some? then o.value else []
  }

  /** A list extended by `vs`: absent stays absent only when there is nothing to add. */
  function Extend(old_: Option<seq<Value>>, vs: seq<Value>): (r: Option<seq<Value>>)
    ensures Listed(r) == Listed(old_) + vs
  {
    if vs == [] then old_ else Some(Listed(old_) + vs)
  }

  lemma ExtendTwice(o: Option<seq<Value>>, us: seq<Value>, vs: seq<Value>)
    ensures Extend(Extend(o, us), vs) == Extend(o, us + vs)
  {
    var base := if o.Some? then o.value else [];
    if vs == [] {
      assert us + vs == us;
    } else if us == [] {
      assert us + vs == vs;
    } else {
      ConcatAssoc(base, us, vs);
    }
  }

  /** One parameter's share: what `key` gains from parameter `k`, then from those after it. */
  lemma StepKeyEffect(stepset: Table<string, seq<Value>>, params: seq<string>, k: nat, key: string, conv: Conversions)
    requires k < |params| && KeyValue(params[k]).Success?
    ensures var (lhs, rhs) := KeyValue(params[k]).value;
      Extend(AppendTo(stepset, lhs, conv.convert(rhs)).Get(key), ValuesFor(params, k + 1, key, conv))
      == Extend(stepset.Get(key), ValuesFor(params, k, key, conv))
  {
    var (lhs, rhs) := KeyValue(params[k]).value;
    var rest := ValuesFor(params, k + 1, key, conv);
    if key == lhs {
      assert ValuesFor(params, k, key, conv) == [conv.convert(rhs)] + rest;
      ExtendTwice(stepset.Get(key), [conv.convert(rhs)], rest);
    } else {
      assert ValuesFor(params, k, key, conv) == [] + rest;
      assert [] + rest == rest;
    }
  }

  /** A `.step` line's parameters are read exactly when each is one `name=value` pair, and ValueError is raised otherwise. */
  lemma {:induction false} StepParamsOk(stepset: Table<string, seq<Value>>, params: seq<string>, k: nat, conv: Conversions)
    requires k <= |params|
    ensures StepParams(stepset, params, k, conv).Success? <==>
      forall j :: k <= j < |params| ==> |Split(params[j], "=")| == 2
    ensures StepParams(stepset, params, k, conv).Failure? ==> StepParams(stepset, params, k, conv).error == ValueError
    decreases |params| - k
  {
    if k < |params| && KeyValue(params[k]).Success? {
      var (lhs, rhs) := KeyValue(params[k]).value;
      StepParamsOk(AppendTo(stepset, lhs, conv.convert(rhs)), params, k + 1, conv);
    }
  }

  /**
   * Reading a `.step` line's parameters: every parameter's list gains, at
   * its end and in line order, the converted values the line assigns to
   * it (a list is created on first sight), the lists of other parameters
   * are kept, and the table stays well formed.
   */
  lemma {:induction false} StepParamsEffect(stepset: Table<string, seq<Value>>, params: seq<string>, k: nat, conv: Conversions)
    requires k <= |params|
    requires StepParams(stepset, params, k, conv).Success?
    ensures stepset.Valid() ==> StepParams(stepset, params, k, conv).value.Valid()
    ensures forall key :: StepParams(stepset, params, k, conv).value.Get(key) == Extend(stepset.Get(key), ValuesFor(params, k, key, conv))
    decreases |params| - k
  {
    if k < |params| {
      var (lhs, rhs) := KeyValue(params[k]).value;
      var next := AppendTo(stepset, lhs, conv.convert(rhs));
      StepParamsEffect(next, params, k + 1, conv);
      forall key ensures StepParams(next, params, k + 1, conv).value.Get(key)
        == Extend(stepset.Get(key), ValuesFor(params, k, key, conv))
      {
        StepKeyEffect(stepset, params, k, key, conv);
      }
    }
  }

  // ----- The preamble -----

  /** The reader's attributes: `step_count`, `stepset`, `dataset` and `fourier`. */
  datatype LogData = LogData(
    stepCount: int,
    stepset: Table<string, seq<Value>>,
    dataset: Dataset,
    fourier: Analyses)

  /** How the preamble loop ended: by `return` at a `Measurement:` line, or ready for the measurements at line `at`. */
  datatype Exit = Returned | MeasuresAt(at: nat)

  /** What one pass of the preamble loop leads to: the next line to read, or the `break` at a `Measurement:` line. */
  datatype Move = Continue(next: nat, log: LogData) | AtMeasurements

  /** The last test of a pass: a stepless measurement is recorded only while no `.step` line has been counted. */
  function AfterLine(log: LogData, line: string, matcher: Matcher, conv: Conversions): LogData {
    if log.stepCount == 0 then log.(dataset := Stepless(log.dataset, matcher(line), conv)) else log
  }

  /** The parameters of a `.step` line: its space-separated tokens after the first. */
  function StepTokens(line: string): seq<string> {
    Split(StripNewlines(line), " ")[1..]
  }

  /** A `.step` line: one more step, and its parameters appended to `stepset`. */
  function StepLine(log: LogData, line: string, conv: Conversions): Result<LogData, Raised> {
    var stepset :- StepParams(log.stepset, StepTokens(line), 0, conv);
    Success(log.(stepCount := log.stepCount + 1, stepset := stepset))
  }

  /**
   * An `N-Period` block at line `i` of the stripped lines, filed under its
   * signal; also gives the line that ended its table.
   */
  function FourierPass(rows: seq<string>, i: nat, log: LogData, conv: Conversions): (r: Result<(LogData, nat), Raised>)
    ensures r.Success? ==> r.value.1 >= i + 6
  {
    var block := FourierBlock(rows, i, log.stepCount, conv);
    if block.Failure? then Failure(block.error)
    else
      var fd := block.value.0;
      Success((log.(fourier := AppendTo(log.fourier, fd.signal, fd)), block.value.1))
  }

  /**
   * The tests of a pass after the Fourier one, on the line in hand: a
   * `.step` line or else a `Measurement:` line, then the stepless test;
   * `next` is the line the pass goes on to.
   */
  function Dispatch(line: string, next: nat, log: LogData, matcher: Matcher, conv: Conversions): (r: Result<Move, Raised>)
    ensures r.Success? && r.value.Continue? ==> r.value.next == next
  {
    if StartsWith(line, StepTag) then
      var log1 :- StepLine(log, line, conv);
      Success(Continue(next, AfterLine(log1, line, matcher, conv)))
    else if StartsWith(line, MeasurementStart) then
      Success(AtMeasurements)
    else
      Success(Continue(next, AfterLine(log, line, matcher, conv)))
  }

  /**
   * One pass of the preamble loop on line `i`: an `N-Period` block first,
   * after which the line in hand is the blank one that ended its table and
   * the pass goes on after it; then the remaining tests on the line in hand.
   * `rows` are the lines as the block reads them, stripped of their
   * terminators (`ReadLog` passes `StrippedLines(lines)`).
   */
  function PreambleLine(lines: seq<string>, rows: seq<string>, i: nat, log: LogData, matcher: Matcher, conv: Conversions)
    : (r: Result<Move, Raised>)
    requires i < |lines|
    ensures r.Success? && r.value.Continue? ==> r.value.next > i
  {
    if StartsWith(lines[i], PeriodsTag) then
      var pass := FourierPass(rows, i, log, conv);
      if pass.Failure? then Failure(pass.error) else Dispatch("", pass.value.1 + 1, pass.value.0, matcher, conv)
    else
      Dispatch(lines[i], i + 1, log, matcher, conv)
  }

  /** The preamble loop from line `i` on, until end of file or a `Measurement:` line. */
  function PreambleFrom(lines: seq<string>, rows: seq<string>, i: nat, log: LogData, readMeasures: bool, matcher: Matcher, conv: Conversions)
    : Result<(LogData, Exit), Raised>
    decreases |lines| - i
  {
    if Readline(lines, i) == "" then Success((log, MeasuresAt(i)))
    else
      var move :- PreambleLine(lines, rows, i, log, matcher, conv);
      match move
      case AtMeasurements => Success((log, if readMeasures then MeasuresAt(i) else Returned))
      case Continue(next, log1) => PreambleFrom(lines, rows, next, log1, readMeasures, matcher, conv)
  }

  /** What the base class sets up before the reader starts: `step_count`, `stepset` (or the given `step_set`) and `dataset`. */
  datatype BaseState = BaseState(stepCount: int, stepset: Table<string, seq<Value>>, dataset: Dataset)

  /** The attributes the reader starts from: the base class's, and no Fourier analysis. */
  function Start(base: BaseState): LogData {
    LogData(base.stepCount, base.stepset, base.dataset, Empty())
  }

  /**
   * `LTSpiceLogReader(...)`: the preamble, then, unless it returned, the
   * measurement section from the line it stopped at.
   */
  function ReadLog(lines: seq<string>, base: BaseState, readMeasures: bool, matcher: Matcher, conv: Conversions)
    : Result<LogData, Raised>
  {
    var (log, exit) :- PreambleFrom(lines, StrippedLines(lines), 0, Start(base), readMeasures, matcher, conv);
    match exit
    case Returned => Success(log)
    case MeasuresAt(i) =>
      var dataset :- MeasureSection(lines, i, log.dataset, conv);
      Success(log.(dataset := dataset))
  }

  // ----- What the preamble keeps -----

  /**
   * A `.step` line's effect: it is read exactly when each of its parameters
   * is one `name=value` pair, and raises ValueError otherwise; it counts one
   * more step, appends to each parameter's list the values the line gives it
   * in order, and touches neither the dataset nor the Fourier analyses.
   */
  lemma StepLineEffect(log: LogData, line: string, conv: Conversions)
    ensures StepLine(log, line, conv).Success? <==>
      forall j :: 0 <= j < |StepTokens(line)| ==> |Split(StepTokens(line)[j], "=")| == 2
    ensures StepLine(log, line, conv).Failure? ==> StepLine(log, line, conv).error == ValueError
    ensures StepLine(log, line, conv).Success? ==> var log1 := StepLine(log, line, conv).value;
      && log1.stepCount == log.stepCount + 1
      && log1.dataset == log.dataset && log1.fourier == log.fourier
      && (log.stepset.Valid() ==> log1.stepset.Valid())
      && forall p :: log1.stepset.Get(p) == Extend(log.stepset.Get(p), ValuesFor(StepTokens(line), 0, p, conv))
  {
    StepParamsOk(log.stepset, StepTokens(line), 0, conv);
    if StepLine(log, line, conv).Success? {
      StepParamsEffect(log.stepset, StepTokens(line), 0, conv);
    }
  }

  /**
   * The attributes are well formed: no table lists a key twice, and every
   * Fourier analysis is filed under its own signal and tagged with a step
   * already counted.
   */
  ghost predicate Consistent(log: LogData) {
    && log.stepset.Valid() && log.dataset.Valid() && log.fourier.Valid()
    && forall s :: s in log.fourier.entries ==>
         forall fd :: fd in log.fourier.entries[s] ==> fd.signal == s && fd.step < log.stepCount
  }

  /**
   * What the preamble does to the attributes between `before` and `after`:
   * the step count never goes down, parameter lists and Fourier lists only
   * grow at their ends, dataset columns are only added or replaced by
   * one-element columns under a name, and the dataset is left alone once a
   * step has been counted.
   */
  ghost predicate Grows(before: LogData, after: LogData) {
    && before.stepCount <= after.stepCount
    && (forall p :: p in before.stepset.entries ==>
          p in after.stepset.entries && before.stepset.entries[p] <= after.stepset.entries[p])
    && (forall s :: s in before.fourier.entries ==>
          s in after.fourier.entries && before.fourier.entries[s] <= after.fourier.entries[s])
    && (forall key :: key in before.dataset.entries ==> key in after.dataset.entries)
    && (forall key :: key in after.dataset.entries ==>
          || (key in before.dataset.entries && after.dataset.entries[key] == before.dataset.entries[key])
          || (key.Some? && |after.dataset.entries[key]| == 1))
    && (before.stepCount > 0 ==> after.dataset == before.dataset)
  }

  lemma GrowsTransitive(a: LogData, b: LogData, c: LogData)
    requires Grows(a, b) && Grows(b, c)
    ensures Grows(a, c)
  {
  }

  /** The stepless test keeps the attributes well formed, and changes the dataset only while no step is counted. */
  lemma AfterLineKeeps(log: LogData, line: string, matcher: Matcher, conv: Conversions)
    requires Consistent(log)
    ensures Consistent(AfterLine(log, line, matcher, conv))
    ensures Grows(log, AfterLine(log, line, matcher, conv))
  {
    var found := matcher(line);
    if log.stepCount == 0 && found.Some? {
      SteplessGrows(log.dataset, found.value, conv);
    }
  }

  /** A stepless measurement keeps every key and only adds or replaces one-element columns under a name. */
  lemma SteplessGrows(dataset: Dataset, m: SteplessMatch, conv: Conversions)
    ensures var ds := Stepless(dataset, Some(m), conv);
      && (dataset.Valid() ==> ds.Valid())
      && (forall key :: key in dataset.entries ==> key in ds.entries)
      && (forall key :: key in ds.entries ==>
            || (key in dataset.entries && ds.entries[key] == dataset.entries[key])
            || (key.Some? && |ds.entries[key]| == 1))
  {
    var ds := Stepless(dataset, Some(m), conv);
    SteplessEffect(dataset, m, conv);
    forall key | key in dataset.entries ensures key in ds.entries {
      assert dataset.Get(key).Some?;
    }
    forall key | key in ds.entries
      ensures || (key in dataset.entries && ds.entries[key] == dataset.entries[key])
              || (key.Some? && |ds.entries[key]| == 1)
    {
      assert ds.Get(key).Some?;
    }
  }

  /** A `.step` line keeps the attributes well formed and only adds to them. */
  lemma StepLineKeeps(log: LogData, line: string, conv: Conversions)
    requires Consistent(log) && StepLine(log, line, conv).Success?
    ensures Consistent(StepLine(log, line, conv).value)
    ensures Grows(log, StepLine(log, line, conv).value)
  {
    var log1 := StepLine(log, line, conv).value;
    StepLineEffect(log, line, conv);
    forall p | p in log.stepset.entries
      ensures p in log1.stepset.entries && log.stepset.entries[p] <= log1.stepset.entries[p]
    {
      assert log.stepset.Get(p).Some?;
      assert log1.stepset.Get(p) == Extend(log.stepset.Get(p), ValuesFor(StepTokens(line), 0, p, conv));
    }
  }

  /**
   * An `N-Period` pass reads the block or raises what the block raises; the
   * analysis it reads, tagged with the last step counted, goes at the end of
   * its signal's list (a list is created for a new signal), and no other
   * signal's list, no step, parameter or dataset column changes.
   */
  lemma FourierPassEffect(rows: seq<string>, i: nat, log: LogData, conv: Conversions)
    ensures FourierPass(rows, i, log, conv).Success? <==> FourierBlock(rows, i, log.stepCount, conv).Success?
    ensures FourierPass(rows, i, log, conv).Failure? ==>
      FourierPass(rows, i, log, conv).error == FourierBlock(rows, i, log.stepCount, conv).error
    ensures FourierPass(rows, i, log, conv).Success? ==>
      var (log1, e) := FourierPass(rows, i, log, conv).value;
      var (fd, end) := FourierBlock(rows, i, log.stepCount, conv).value;
      && e == end && fd.step == log.stepCount - 1
      && log1.stepCount == log.stepCount && log1.stepset == log.stepset && log1.dataset == log.dataset
      && log1.fourier.Get(fd.signal)
         == Some((if fd.signal in log.fourier.entries then log.fourier.entries[fd.signal] else []) + [fd])
      && forall s :: s != fd.signal ==> log1.fourier.Get(s) == log.fourier.Get(s)
  {
  }

  /** Filing a Fourier analysis tagged with the last step counted keeps the attributes well formed and only adds to them. */
  lemma FileAnalysisKeeps(log: LogData, fd: FourierData)
    requires Consistent(log) && fd.step == log.stepCount - 1
    ensures Consistent(log.(fourier := AppendTo(log.fourier, fd.signal, fd)))
    ensures Grows(log, log.(fourier := AppendTo(log.fourier, fd.signal, fd)))
  {
    var f1 := AppendTo(log.fourier, fd.signal, fd);
    forall s | s in f1.entries
      ensures forall x :: x in f1.entries[s] ==> x.signal == s && x.step < log.stepCount
    {
      assert f1.Get(s).Some?;
      if s != fd.signal {
        assert log.fourier.Get(s).Some?;
      }
    }
    forall s | s in log.fourier.entries
      ensures s in f1.entries && log.fourier.entries[s] <= f1.entries[s]
    {
      assert log.fourier.Get(s).Some?;
      assert f1.Get(s).Some?;
    }
  }

  /** One pass of the preamble loop keeps the attributes well formed and only adds to them. */
  lemma PreambleLineKeeps(lines: seq<string>, rows: seq<string>, i: nat, log: LogData, matcher: Matcher, conv: Conversions)
    requires i < |lines| && Consistent(log)
    requires PreambleLine(lines, rows, i, log, matcher, conv).Success?
    requires PreambleLine(lines, rows, i, log, matcher, conv).value.Continue?
    ensures Consistent(PreambleLine(lines, rows, i, log, matcher, conv).value.log)
    ensures Grows(log, PreambleLine(lines, rows, i, log, matcher, conv).value.log)
  {
    var line := lines[i];
    if StartsWith(line, PeriodsTag) {
      var fd := FourierBlock(rows, i, log.stepCount, conv).value.0;
      var log1 := FourierPass(rows, i, log, conv).value.0;
      FileAnalysisKeeps(log, fd);
      AfterLineKeeps(log1, "", matcher, conv);
      GrowsTransitive(log, log1, AfterLine(log1, "", matcher, conv));
    } else if StartsWith(line, StepTag) {
      var log1 := StepLine(log, line, conv).value;
      StepLineKeeps(log, line, conv);
      AfterLineKeeps(log1, line, matcher, conv);
      GrowsTransitive(log, log1, AfterLine(log1, line, matcher, conv));
    } else {
      AfterLineKeeps(log, line, matcher, conv);
    }
  }

  /**
   * The whole preamble keeps the attributes well formed and only adds to
   * them: in particular, once a step has been counted no line is taken as a
   * stepless measurement any more, and every column the preamble stores is
   * a one-element list.
   */
  lemma {:induction false} PreambleKeeps(lines: seq<string>, rows: seq<string>, i: nat, log: LogData, readMeasures: bool,
                                         matcher: Matcher, conv: Conversions)
    requires Consistent(log)
    requires PreambleFrom(lines, rows, i, log, readMeasures, matcher, conv).Success?
    ensures Consistent(PreambleFrom(lines, rows, i, log, readMeasures, matcher, conv).value.0)
    ensures Grows(log, PreambleFrom(lines, rows, i, log, readMeasures, matcher, conv).value.0)
    decreases |lines| - i
  {
    if Readline(lines, i) != "" {
      var move := PreambleLine(lines, rows, i, log, matcher, conv).value;
      if move.Continue? {
        PreambleLineKeeps(lines, rows, i, log, matcher, conv);
        PreambleKeeps(lines, rows, move.next, move.log, readMeasures, matcher, conv);
        GrowsTransitive(log, move.log, PreambleFrom(lines, rows, move.next, move.log, readMeasures, matcher, conv).value.0);
      }
    }
  }

  // ----- The passes of the preamble loop -----

  /**
   * The lines the preamble loop's passes begin at, in order, until it
   * stops: a pass reads one line, or a whole `N-Period` block, and the next
   * pass begins where `PreambleLine` says.
   */
  ghost function Passes(lines: seq<string>, rows: seq<string>, i: nat, log: LogData, matcher: Matcher, conv: Conversions)
    : seq<nat>
    decreases |lines| - i
  {
    if Readline(lines, i) == "" then []
    else match PreambleLine(lines, rows, i, log, matcher, conv)
      case Success(Continue(next, log1)) => [i] + Passes(lines, rows, next, log1, matcher, conv)
      case _ => []
  }

  /** A pass that goes on is followed by the passes from the line it moves to. */
  lemma PassesCons(lines: seq<string>, rows: seq<string>, i: nat, log: LogData, matcher: Matcher, conv: Conversions)
    requires i < |lines| && lines[i] != ""
    requires PreambleLine(lines, rows, i, log, matcher, conv).Success?
    requires PreambleLine(lines, rows, i, log, matcher, conv).value.Continue?
    ensures var move := PreambleLine(lines, rows, i, log, matcher, conv).value;
      Passes(lines, rows, i, log, matcher, conv) == [i] + Passes(lines, rows, move.next, move.log, matcher, conv)
  {
  }

  /** The `.step` lines among the lines at `passes`, in order. */
  function StepLines(lines: seq<string>, passes: seq<nat>): (steps: seq<string>)
    ensures forall l :: l in steps ==> StartsWith(l, StepTag)
  {
    if passes == [] then []
    else
      var j := passes[0];
      (if j < |lines| && StartsWith(lines[j], StepTag) then [lines[j]] else []) + StepLines(lines, passes[1..])
  }

  /** The values that the `.step` lines `steps` assign to `p`, line after line. */
  function ValuesOver(steps: seq<string>, p: string, conv: Conversions): seq<Value> {
    if steps == [] then [] else ValuesFor(StepTokens(steps[0]), 0, p, conv) + ValuesOver(steps[1..], p, conv)
  }

  /** A line starts with at most one of the tags the preamble tests. */
  lemma TagsDiffer(line: string)
    ensures StartsWith(line, PeriodsTag) ==> !StartsWith(line, StepTag) && !StartsWith(line, MeasurementStart)
    ensures StartsWith(line, StepTag) ==> !StartsWith(line, MeasurementStart)
  {
    if StartsWith(line, PeriodsTag) {
      assert line[0] == line[..|PeriodsTag|][0] == 'N';
    } else if StartsWith(line, StepTag) {
      assert line[0] == line[..|StepTag|][0] == '.';
    }
  }

  /** A pass that goes on began at a line that is not a `Measurement:` line. */
  lemma PassNotMeasurement(lines: seq<string>, rows: seq<string>, i: nat, log: LogData, matcher: Matcher, conv: Conversions)
    requires i < |lines|
    requires PreambleLine(lines, rows, i, log, matcher, conv).Success?
    requires PreambleLine(lines, rows, i, log, matcher, conv).value.Continue?
    ensures !StartsWith(lines[i], MeasurementStart)
  {
    TagsDiffer(lines[i]);
  }

  /**
   * A pass that goes on counts one step exactly when it began at a `.step`
   * line, and each parameter's list gains the values that line assigns to it.
   */
  lemma PassSteps(lines: seq<string>, rows: seq<string>, i: nat, log: LogData, matcher: Matcher, conv: Conversions)
    requires i < |lines|
    requires PreambleLine(lines, rows, i, log, matcher, conv).Success?
    requires PreambleLine(lines, rows, i, log, matcher, conv).value.Continue?
    ensures var log1 := PreambleLine(lines, rows, i, log, matcher, conv).value.log;
      var steps := if StartsWith(lines[i], StepTag) then [lines[i]] else [];
      && log1.stepCount == log.stepCount + |steps|
      && forall p :: log1.stepset.Get(p) == Extend(log.stepset.Get(p), ValuesOver(steps, p, conv))
  {
    if StartsWith(lines[i], StepTag) {
      StepPass(lines, rows, i, log, matcher, conv);
    } else {
      OtherPass(lines, rows, i, log, matcher, conv);
    }
  }

  /** A pass at a `.step` line counts one more step and gives each parameter the values the line assigns to it. */
  lemma StepPass(lines: seq<string>, rows: seq<string>, i: nat, log: LogData, matcher: Matcher, conv: Conversions)
    requires i < |lines| && StartsWith(lines[i], StepTag)
    requires PreambleLine(lines, rows, i, log, matcher, conv).Success?
    ensures var log1 := PreambleLine(lines, rows, i, log, matcher, conv).value;
      && log1.Continue? && log1.log.stepCount == log.stepCount + 1
      && forall p :: log1.log.stepset.Get(p) == Extend(log.stepset.Get(p), ValuesOver([lines[i]], p, conv))
  {
    var line := lines[i];
    TagsDiffer(line);
    StepLineEffect(log, line, conv);
    forall p ensures ValuesOver([line], p, conv) == ValuesFor(StepTokens(line), 0, p, conv) {
      assert [line][1..] == [];
    }
  }

  /** A pass at any other line, an `N-Period` block included, counts no step and leaves the parameters alone. */
  lemma OtherPass(lines: seq<string>, rows: seq<string>, i: nat, log: LogData, matcher: Matcher, conv: Conversions)
    requires i < |lines| && !StartsWith(lines[i], StepTag)
    requires PreambleLine(lines, rows, i, log, matcher, conv).Success?
    requires PreambleLine(lines, rows, i, log, matcher, conv).value.Continue?
    ensures var log1 := PreambleLine(lines, rows, i, log, matcher, conv).value.log;
      && log1.stepCount == log.stepCount
      && forall p :: log1.stepset.Get(p) == Extend(log.stepset.Get(p), ValuesOver([], p, conv))
  {
    if StartsWith(lines[i], PeriodsTag) {
      assert !StartsWith("", StepTag);
    }
  }

  /**
   * Over the whole preamble, `step_count` rises by exactly the number of
   * `.step` lines the loop reads, and every parameter's list gains, at its
   * end and in file order, the values those lines assign to it.
   */
  lemma {:induction false} PreambleSteps(lines: seq<string>, rows: seq<string>, i: nat, log: LogData, readMeasures: bool,
                                         matcher: Matcher, conv: Conversions)
    requires PreambleFrom(lines, rows, i, log, readMeasures, matcher, conv).Success?
    ensures var log1 := PreambleFrom(lines, rows, i, log, readMeasures, matcher, conv).value.0;
      var steps := StepLines(lines, Passes(lines, rows, i, log, matcher, conv));
      && log1.stepCount == log.stepCount + |steps|
      && forall p :: log1.stepset.Get(p) == Extend(log.stepset.Get(p), ValuesOver(steps, p, conv))
    decreases |lines| - i
  {
    if Readline(lines, i) != "" {
      var move := PreambleLine(lines, rows, i, log, matcher, conv).value;
      if move.Continue? {
        PassSteps(lines, rows, i, log, matcher, conv);
        PreambleSteps(lines, rows, move.next, move.log, readMeasures, matcher, conv);
        var rest := Passes(lines, rows, move.next, move.log, matcher, conv);
        var here := if StartsWith(lines[i], StepTag) then [lines[i]] else [];
        PassesCons(lines, rows, i, log, matcher, conv);
        assert ([i] + rest)[1..] == rest;
        assert StepLines(lines, [i] + rest) == here + StepLines(lines, rest);
        forall p ensures Extend(move.log.stepset.Get(p), ValuesOver(StepLines(lines, rest), p, conv))
          == Extend(log.stepset.Get(p), ValuesOver(here + StepLines(lines, rest), p, conv))
        {
          ValuesOverAppend(here, StepLines(lines, rest), p, conv);
          ExtendTwice(log.stepset.Get(p), ValuesOver(here, p, conv), ValuesOver(StepLines(lines, rest), p, conv));
        }
      }
    }
  }

  lemma ValuesOverAppend(here: seq<string>, steps: seq<string>, p: string, conv: Conversions)
    requires |here| <= 1
    ensures ValuesOver(here + steps, p, conv) == ValuesOver(here, p, conv) + ValuesOver(steps, p, conv)
  {
    if here == [] {
      assert here + steps == steps;
    } else {
      assert (here + steps)[1..] == steps;
      assert here[1..] == [];
    }
  }

  /** Lines that each assign `p` once give `p` one value per line. */
  lemma {:induction false} OncePerLine(steps: seq<string>, p: string, conv: Conversions)
    requires forall l :: l in steps ==> |ValuesFor(StepTokens(l), 0, p, conv)| == 1
    ensures |ValuesOver(steps, p, conv)| == |steps|
  {
    if steps != [] {
      assert steps[0] in steps;
      OncePerLine(steps[1..], p, conv);
    }
  }

  /**
   * A parameter that every `.step` line of the preamble names once has one
   * value per step counted: its list grows by exactly as many values as
   * `step_count` rises.
   */
  lemma PreambleStepCount(lines: seq<string>, rows: seq<string>, i: nat, log: LogData, readMeasures: bool,
                          p: string, matcher: Matcher, conv: Conversions)
    requires PreambleFrom(lines, rows, i, log, readMeasures, matcher, conv).Success?
    requires forall l :: l in StepLines(lines, Passes(lines, rows, i, log, matcher, conv)) ==>
      |ValuesFor(StepTokens(l), 0, p, conv)| == 1
    ensures var log1 := PreambleFrom(lines, rows, i, log, readMeasures, matcher, conv).value.0;
      |Listed(log1.stepset.Get(p))| == |Listed(log.stepset.Get(p))| + (log1.stepCount - log.stepCount)
  {
    PreambleSteps(lines, rows, i, log, readMeasures, matcher, conv);
    OncePerLine(StepLines(lines, Passes(lines, rows, i, log, matcher, conv)), p, conv);
  }

  // ----- How the preamble ends -----

  /**
   * The preamble ends at end of file or at a line that starts with
   * `Measurement:`, and returns from the reader only when measurements are
   * not wanted. The passes before the end begin at increasing lines before
   * it, none of which is a `Measurement:` line: the loop stops at the first
   * `Measurement:` line it reaches.
   */
  lemma PreambleStops(lines: seq<string>, rows: seq<string>, i: nat, log: LogData, readMeasures: bool,
                      matcher: Matcher, conv: Conversions)
    requires PreambleFrom(lines, rows, i, log, readMeasures, matcher, conv).Success?
    ensures var exit := PreambleFrom(lines, rows, i, log, readMeasures, matcher, conv).value.1;
      var passes := Passes(lines, rows, i, log, matcher, conv);
      && (exit.Returned? ==> !readMeasures)
      && (exit.MeasuresAt? ==> i <= exit.at && (Readline(lines, exit.at) == "" || StartsWith(lines[exit.at], MeasurementStart)))
      && (forall k :: 0 <= k < |passes| ==> i <= passes[k] < |lines| && !StartsWith(lines[passes[k]], MeasurementStart))
      && (forall k :: 0 < k < |passes| ==> passes[k - 1] < passes[k])
      && (exit.MeasuresAt? ==> forall k :: 0 <= k < |passes| ==> passes[k] < exit.at)
  {
    PreambleExit(lines, rows, i, log, readMeasures, matcher, conv);
    PassesAhead(lines, rows, i, log, matcher, conv);
    PassesIncrease(lines, rows, i, log, matcher, conv);
    PassesBeforeExit(lines, rows, i, log, readMeasures, matcher, conv);
  }

  /** Where the preamble loop ends, and how. */
  lemma {:induction false} PreambleExit(lines: seq<string>, rows: seq<string>, i: nat, log: LogData, readMeasures: bool,
                                        matcher: Matcher, conv: Conversions)
    requires PreambleFrom(lines, rows, i, log, readMeasures, matcher, conv).Success?
    ensures var exit := PreambleFrom(lines, rows, i, log, readMeasures, matcher, conv).value.1;
      && (exit.Returned? ==> !readMeasures)
      && (exit.MeasuresAt? ==> i <= exit.at && (Readline(lines, exit.at) == "" || StartsWith(lines[exit.at], MeasurementStart)))
    decreases |lines| - i
  {
    if Readline(lines, i) != "" {
      var move := PreambleLine(lines, rows, i, log, matcher, conv).value;
      if move.Continue? {
        PreambleExit(lines, rows, move.next, move.log, readMeasures, matcher, conv);
      }
    }
  }

  /** The passes begin at lines from `i` on, none of them a `Measurement:` line. */
  lemma {:induction false} PassesAhead(lines: seq<string>, rows: seq<string>, i: nat, log: LogData, matcher: Matcher, conv: Conversions)
    ensures var passes := Passes(lines, rows, i, log, matcher, conv);
      forall k :: 0 <= k < |passes| ==> i <= passes[k] < |lines| && !StartsWith(lines[passes[k]], MeasurementStart)
    decreases |lines| - i
  {
    if Readline(lines, i) != "" {
      var move := PreambleLine(lines, rows, i, log, matcher, conv);
      if move.Success? && move.value.Continue? {
        PassNotMeasurement(lines, rows, i, log, matcher, conv);
        PassesCons(lines, rows, i, log, matcher, conv);
        PassesAhead(lines, rows, move.value.next, move.value.log, matcher, conv);
      }
    }
  }

  /** The passes begin at increasing lines. */
  lemma {:induction false} PassesIncrease(lines: seq<string>, rows: seq<string>, i: nat, log: LogData, matcher: Matcher, conv: Conversions)
    ensures var passes := Passes(lines, rows, i, log, matcher, conv);
      forall k :: 0 < k < |passes| ==> passes[k - 1] < passes[k]
    decreases |lines| - i
  {
    if Readline(lines, i) != "" {
      var move := PreambleLine(lines, rows, i, log, matcher, conv);
      if move.Success? && move.value.Continue? {
        PassesCons(lines, rows, i, log, matcher, conv);
        PassesAhead(lines, rows, move.value.next, move.value.log, matcher, conv);
        PassesIncrease(lines, rows, move.value.next, move.value.log, matcher, conv);
      }
    }
  }

  /** Every pass begins before the line where the loop stops for the measurements. */
  lemma {:induction false} PassesBeforeExit(lines: seq<string>, rows: seq<string>, i: nat, log: LogData, readMeasures: bool,
                                            matcher: Matcher, conv: Conversions)
    requires PreambleFrom(lines, rows, i, log, readMeasures, matcher, conv).Success?
    ensures var exit := PreambleFrom(lines, rows, i, log, readMeasures, matcher, conv).value.1;
      var passes := Passes(lines, rows, i, log, matcher, conv);
      exit.MeasuresAt? ==> forall k :: 0 <= k < |passes| ==> passes[k] < exit.at
    decreases |lines| - i
  {
    if Readline(lines, i) != "" {
      var move := PreambleLine(lines, rows, i, log, matcher, conv).value;
      if move.Continue? {
        PreambleExit(lines, rows, move.next, move.log, readMeasures, matcher, conv);
        PassesBeforeExit(lines, rows, move.next, move.log, readMeasures, matcher, conv);
        PassesCons(lines, rows, i, log, matcher, conv);
      }
    }
  }

  /**
   * `read_measures` only decides how the preamble ends: both readings go
   * through the same lines to the same attributes or the same exception,
   * and where the one that wants measurements stops at a `Measurement:`
   * line, the other returns.
   */
  lemma {:induction false} ReadMeasuresOnlyExit(lines: seq<string>, rows: seq<string>, i: nat, log: LogData, matcher: Matcher, conv: Conversions)
    ensures PreambleFrom(lines, rows, i, log, false, matcher, conv).Success? == PreambleFrom(lines, rows, i, log, true, matcher, conv).Success?
    ensures PreambleFrom(lines, rows, i, log, false, matcher, conv).Failure? ==>
      PreambleFrom(lines, rows, i, log, false, matcher, conv).error == PreambleFrom(lines, rows, i, log, true, matcher, conv).error
    ensures PreambleFrom(lines, rows, i, log, true, matcher, conv).Success? ==>
      var (log1, exit) := PreambleFrom(lines, rows, i, log, true, matcher, conv).value;
      && exit.MeasuresAt?
      && PreambleFrom(lines, rows, i, log, false, matcher, conv).value
         == (log1, if Readline(lines, exit.at) == "" then exit else Returned)
    decreases |lines| - i
  {
    if Readline(lines, i) != "" {
      var move := PreambleLine(lines, rows, i, log, matcher, conv);
      if move.Success? && move.value.Continue? {
        ReadMeasuresOnlyExit(lines, rows, move.value.next, move.value.log, matcher, conv);
      }
    }
  }

  /**
   * Without measurements the reader is its preamble alone. It succeeds
   * whenever the reader with measurements does, and then has the same step
   * count, parameters and Fourier analyses; its dataset holds what it held
   * at the start and one-element stepless columns, and nothing else.
   */
  lemma WithoutMeasures(lines: seq<string>, base: BaseState, matcher: Matcher, conv: Conversions)
    requires base.stepset.Valid() && base.dataset.Valid()
    ensures ReadLog(lines, base, true, matcher, conv).Success? ==> ReadLog(lines, base, false, matcher, conv).Success?
    ensures ReadLog(lines, base, false, matcher, conv).Success? ==>
      var log := ReadLog(lines, base, false, matcher, conv).value;
      && Consistent(log) && Grows(Start(base), log)
      && (ReadLog(lines, base, true, matcher, conv).Success? ==>
            ReadLog(lines, base, true, matcher, conv).value == log.(dataset := ReadLog(lines, base, true, matcher, conv).value.dataset))
  {
    var start := Start(base);
    var rows := StrippedLines(lines);
    ReadMeasuresOnlyExit(lines, rows, 0, start, matcher, conv);
    if PreambleFrom(lines, rows, 0, start, false, matcher, conv).Success? {
      PreambleKeeps(lines, rows, 0, start, false, matcher, conv);
      var (log, exit) := PreambleFrom(lines, rows, 0, start, false, matcher, conv).value;
      if exit.MeasuresAt? {
        assert Readline(lines, exit.at) == "";
        assert MeasureSection(lines, exit.at, log.dataset, conv) == Success(log.dataset);
      }
    }
  }

  // ----- The reader's loops -----

  /** `for k, title in enumerate(headers): dataset[title] = [try_convert_value(measurements[k])]` */
  method StoreStepless(dataset: Dataset, m: SteplessMatch, conv: Conversions) returns (r: Dataset)
    ensures r == Stepless(dataset, Some(m), conv)
  {
    var cols := SteplessColumns(m);
    r := dataset;
    var k := 0;
    while k < |cols|
      invariant 0 <= k <= |cols|
      invariant PutColumns(r, cols, k, conv) == PutColumns(dataset, cols, 0, conv)
    {
      r := r.Put(Some(cols[k].0), [conv.convert(cols[k].1)]);
      k := k + 1;
    }
  }

  /** The stepless test at the end of a pass. */
  method RecordStepless(log: LogData, line: string, matcher: Matcher, conv: Conversions) returns (r: LogData)
    ensures r == AfterLine(log, line, matcher, conv)
  {
    r := log;
    if log.stepCount == 0 {
      var found := matcher(line);
      if found.Some? {
        var dataset := StoreStepless(log.dataset, found.value, conv);
        r := log.(dataset := dataset);
      }
    }
  }

  /** `ll = stepset.get(lhs)`: `ll.append(rhs)` when the list is non-empty, `stepset[lhs] = [rhs]` otherwise. */
  method AppendParam(stepset: Table<string, seq<Value>>, lhs: string, value: Value) returns (r: Table<string, seq<Value>>)
    ensures r == AppendTo(stepset, lhs, value)
  {
    var ll := stepset.Get(lhs);
    if ll.Some? && ll.value != [] {
      r := stepset.Put(lhs, ll.value + [value]);
    } else {
      assert (if lhs in stepset.entries then stepset.entries[lhs] else []) + [value] == [value];
      r := stepset.Put(lhs, [value]);
    }
  }

  /**
   * A `.step` line: the count goes up, then each parameter is split at `=`
   * and its converted value appended to the parameter's list.
   */
  method ReadStepLine(log: LogData, line: string, conv: Conversions) returns (r: Result<LogData, Raised>)
    ensures r == StepLine(log, line, conv)
  {
    var params := StepTokens(line);
    var stepset := log.stepset;
    var k := 0;
    while k < |params|
      invariant 0 <= k <= |params|
      invariant StepParams(stepset, params, k, conv) == StepParams(log.stepset, params, 0, conv)
    {
      var kv := KeyValue(params[k]);
      if kv.Failure? {
        return Failure(kv.error);
      }
      var (lhs, rhs) := kv.value;
      stepset := AppendParam(stepset, lhs, conv.convert(rhs));
      k := k + 1;
    }
    return Success(log.(stepCount := log.stepCount + 1, stepset := stepset));
  }

  /** An `N-Period` block read and filed under its signal. */
  method ReadFourierPass(rows: seq<string>, i: nat, log: LogData, conv: Conversions) returns (r: Result<(LogData, nat), Raised>)
    ensures r == FourierPass(rows, i, log, conv)
  {
    var block := ReadFourierBlock(rows, i, log.stepCount, conv);
    if block.Failure? {
      return Failure(block.error);
    }
    var (fd, e) := block.value;
    var analyses := log.fourier;
    analyses := AppendTo(analyses, fd.signal, fd);
    return Success((log.(fourier := analyses), e));
  }

  /** The `.step` / `Measurement:` / stepless tests of a pass. */
  method DispatchLine(line: string, next: nat, log: LogData, matcher: Matcher, conv: Conversions)
    returns (r: Result<Move, Raised>)
    ensures r == Dispatch(line, next, log, matcher, conv)
  {
    var current := log;
    if StartsWith(line, StepTag) {
      var stepped := ReadStepLine(log, line, conv);
      if stepped.Failure? {
        return Failure(stepped.error);
      }
      current := stepped.value;
    } else if StartsWith(line, MeasurementStart) {
      return Success(AtMeasurements);
    }
    current := RecordStepless(current, line, matcher, conv);
    return Success(Continue(next, current));
  }

  /** One pass of the preamble loop on line `i`; `rows` are the lines stripped of their terminators. */
  method PreambleStep(lines: seq<string>, rows: seq<string>, i: nat, log: LogData, matcher: Matcher, conv: Conversions)
    returns (r: Result<Move, Raised>)
    requires i < |lines|
    ensures r == PreambleLine(lines, rows, i, log, matcher, conv)
  {
    if StartsWith(lines[i], PeriodsTag) {
      var pass := ReadFourierPass(rows, i, log, conv);
      if pass.Failure? {
        return Failure(pass.error);
      }
      r := DispatchLine("", pass.value.1 + 1, pass.value.0, matcher, conv);
    } else {
      r := DispatchLine(lines[i], i + 1, log, matcher, conv);
    }
  }

  /** The preamble loop, `while line:`, from the first line. */
  method ReadPreamble(lines: seq<string>, start: LogData, readMeasures: bool, matcher: Matcher, conv: Conversions)
    returns (r: Result<(LogData, Exit), Raised>)
    ensures r == PreambleFrom(lines, StrippedLines(lines), 0, start, readMeasures, matcher, conv)
  {
    var rows := StrippedLines(lines);
    var i := 0;
    var log := start;
    while Readline(lines, i) != ""
      invariant PreambleFrom(lines, rows, i, log, readMeasures, matcher, conv) == PreambleFrom(lines, rows, 0, start, readMeasures, matcher, conv)
      decreases |lines| - i
    {
      var move := PreambleStep(lines, rows, i, log, matcher, conv);
      if move.Failure? {
        return Failure(move.error);
      }
      if move.value.AtMeasurements? {
        if !readMeasures {
          return Success((log, Returned));
        }
        return Success((log, MeasuresAt(i)));
      }
      i, log := move.value.next, move.value.log;
    }
    return Success((log, MeasuresAt(i)));
  }

  /** `LTSpiceLogReader(...)` on the lines of a log file. */
  method ReadLogFile(lines: seq<string>, base: BaseState, readMeasures: bool, matcher: Matcher, conv: Conversions)
    returns (r: Result<LogData, Raised>)
    ensures r == ReadLog(lines, base, readMeasures, matcher, conv)
  {
    var preamble := ReadPreamble(lines, Start(base), readMeasures, matcher, conv);
    if preamble.Failure? {
      return Failure(preamble.error);
    }
    var (log, exit) := preamble.value;
    if exit.Returned? {
      return Success(log);
    }
    var dataset := ReadMeasurements(lines, exit.at, log.dataset, conv);
    if dataset.Failure? {
      return Failure(dataset.error);
    }
    return Success(log.(dataset := dataset.value));
  }
}
