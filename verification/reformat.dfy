/**
 * `reformat_LTSpice_export` (spicelib/log/ltsteps.py): rewrites an LTspice
 * "Export data as text" file so that every data line carries the run number
 * and the stepped parameter values of the run it belongs to.
 *
 * The file is the sequence of lines `readline` and `for line in fin` yield,
 * terminators included; the output is the sequence of strings written, in
 * order.
 */
module Reformat {
  import opened Wrappers
  import opened Text
  import opened Values
  import opened StepInfo

  /** `param.split('=')[0]` for each token of the parameter group. */
  function NamesOf(params: seq<string>): (names: seq<string>)
    ensures |names| == |params|
    ensures forall i :: 0 <= i < |params| ==> names[i] == Split(params[i], "=")[0]
  {
    if params == [] then [] else [Split(params[0], "=")[0]] + NamesOf(params[1..])
  }

  /** `param.split('=')[1]` for each token; IndexError at the first token without `=`. */
  function ValuesOf(params: seq<string>): (r: Result<seq<string>, Raised>)
    ensures r.Success? <==> forall i :: 0 <= i < |params| ==> |Split(params[i], "=")| >= 2
    ensures r.Success? ==> |r.value| == |params|
    ensures r.Success? ==> forall i :: 0 <= i < |params| ==> r.value[i] == Split(params[i], "=")[1]
    ensures r.Failure? ==> r.error == IndexError
  {
    if params == [] then Success([])
    else
      var parts := Split(params[0], "=");
      if |parts| < 2 then Failure(IndexError)
      else Prepend([parts[1]], ValuesOf(params[1..]))
  }

  /** The loop that collects the header keys. */
  method CollectNames(params: seq<string>) returns (names: seq<string>)
    ensures names == NamesOf(params)
  {
    names := [];
    var i := 0;
    while i < |params|
      invariant 0 <= i <= |params| && |names| == i
      invariant forall k :: 0 <= k < i ==> names[k] == Split(params[k], "=")[0]
    {
      names := names + [Split(params[i], "=")[0]];
      i := i + 1;
    }
  }

  /** The loop that collects the parameter values, raising where a token has no `=`. */
  method CollectValues(params: seq<string>) returns (r: Result<seq<string>, Raised>)
    ensures r == ValuesOf(params)
  {
    var values: seq<string> := [];
    var i := 0;
    while i < |params|
      invariant 0 <= i <= |params| && |values| == i
      invariant forall k :: 0 <= k < i ==> |Split(params[k], "=")| >= 2 && values[k] == Split(params[k], "=")[1]
    {
      var parts := Split(params[i], "=");
      if |parts| < 2 {
        assert ValuesOf(params).Failure?;
        return Failure(IndexError);
      }
      values := values + [parts[1]];
      i := i + 1;
    }
    assert values == ValuesOf(params).value;
    return Success(values);
  }

  /** The names and values of a divider LTspice writes are read back from its parameter group. */
  lemma ParamsOfMarker(names: seq<string>, values: seq<string>)
    requires |names| == |values|
    requires forall i :: 0 <= i < |names| ==> IsToken(names[i]) && IsToken(values[i])
    ensures var params := Words(Join(Assignments(names, values), " ") + " ");
      NamesOf(params) == names && ValuesOf(params) == Success(values)
  {
    var a := Assignments(names, values);
    AssignmentWords(names, values);
    assert NamesOf(a) == names;
    assert ValuesOf(a).value == values;
  }

  /**
   * What the loop carries from line to line: whether the extended header is
   * still to be written, and the run number and tab-joined parameter values
   * of the last matched divider.
   */
  datatype ReformatState = ReformatState(goHeader: bool, runNo: string, paramValues: string)

  /** Before any divider `run_no` is the integer 0, printed as "0", and there are no values. */
  const Initial := ReformatState(true, "0", "")

  /** The extended header: `Run`, the parameter names, then the file's own header line. */
  function HeaderRow(names: seq<string>, header: string): string {
    "Run\t" + Join(names, "\t") + "\t" + header
  }

  /** A data line with the run number and parameter values in front. */
  function DataRow(s: ReformatState, line: string): string {
    s.runNo + "\t" + s.paramValues + "\t" + line
  }

  datatype Step = Step(state: ReformatState, written: seq<string>)

  /** One iteration of the loop over the lines after the header. */
  function ReformatLine(header: string, s: ReformatState, line: string): Result<Step, Raised> {
    if StartsWith(line, Marker) then
      match MatchStepInfo(line)
      case None => Success(Step(s, []))
      case Some(m) =>
        var params := Words(m.step);
        var values :- ValuesOf(params);
        var next := ReformatState(false, m.run, Join(values, "\t"));
        if s.goHeader then Success(Step(next, [HeaderRow(NamesOf(params), header)]))
        else Success(Step(next, []))
    else Success(Step(s, [DataRow(s, line)]))
  }

  /** What the loop writes for `lines`, starting from state `s`. */
  function ReformatFrom(header: string, s: ReformatState, lines: seq<string>): Result<seq<string>, Raised>
    decreases |lines|
  {
    if lines == [] then Success([])
    else
      var step :- ReformatLine(header, s, lines[0]);
      Prepend(step.written, ReformatFrom(header, step.state, lines[1..]))
  }

  /** The whole transform: the first line is the header, the rest go through the loop. */
  function Reformat(file: seq<string>): Result<seq<string>, Raised> {
    if file == [] then Success([]) else ReformatFrom(file[0], Initial, file[1..])
  }

  /**
   * What the output file holds when the loop stops, at the end of the
   * input or at the line that raises: each line writes as it is read, so
   * the lines before the one that raises keep their output.
   */
  function Written(header: string, s: ReformatState, lines: seq<string>): seq<string>
    decreases |lines|
  {
    if lines == [] then []
    else match ReformatLine(header, s, lines[0])
      case Failure(_) => []
      case Success(step) => step.written + Written(header, step.state, lines[1..])
  }

  /** What the output file holds for the whole input. */
  function WrittenFile(file: seq<string>): seq<string> {
    if file == [] then [] else Written(file[0], Initial, file[1..])
  }

  /** The body of the loop: what one line after the header does to the state and the output. */
  method ProcessLine(header: string, s: ReformatState, line: string) returns (r: Result<Step, Raised>)
    ensures r == ReformatLine(header, s, line)
  {
    if StartsWith(line, Marker) {
      var m := MatchStepInfo(line);
      if m.None? {
        return Success(Step(s, []));
      }
      var params := Words(m.value.step);
      var values := CollectValues(params);
      if values.Failure? {
        return Failure(values.error);
      }
      var next := ReformatState(false, m.value.run, Join(values.value, "\t"));
      if s.goHeader {
        var names := CollectNames(params);
        return Success(Step(next, [HeaderRow(names, header)]));
      }
      return Success(Step(next, []));
    }
    return Success(Step(s, [s.runNo + "\t" + s.paramValues + "\t" + line]));
  }

  /**
   * `reformat_LTSpice_export`: the result, or the exception raised, and the
   * lines written to the output file either way.
   */
  method ReformatExport(file: seq<string>) returns (r: Result<seq<string>, Raised>, written: seq<string>)
    ensures r == Reformat(file)
    ensures written == WrittenFile(file)
  {
    if file == [] {
      return Success([]), [];
    }
    var header := file[0];
    var state := Initial;
    written := [];
    var i := 1;
    PrependNothing(Reformat(file));
    while i < |file|
      invariant 1 <= i <= |file|
      invariant Reformat(file) == Prepend(written, ReformatFrom(header, state, file[i..]))
      invariant WrittenFile(file) == written + Written(header, state, file[i..])
    {
      var step := ProcessLine(header, state, file[i]);
      AdvanceOutput(header, state, written, file[i..], step);
      WrittenAdvance(header, state, written, file[i..]);
      assert file[i..][1..] == file[i + 1..];
      if step.Failure? {
        return Failure(step.error), written;
      }
      written := written + step.value.written;
      state := step.value.state;
      i := i + 1;
    }
    assert file[i..] == [];
    assert written + [] == written;
    return Success(written), written;
  }

  /** One line's share of what the output file holds. */
  lemma WrittenAdvance(header: string, s: ReformatState, out: seq<string>, lines: seq<string>)
    requires lines != []
    ensures ReformatLine(header, s, lines[0]).Failure? ==> out + Written(header, s, lines) == out
    ensures ReformatLine(header, s, lines[0]).Success? ==>
      var step := ReformatLine(header, s, lines[0]).value;
      out + Written(header, s, lines) == (out + step.written) + Written(header, step.state, lines[1..])
  {
    if ReformatLine(header, s, lines[0]).Success? {
      var step := ReformatLine(header, s, lines[0]).value;
      Assoc(out, step.written, Written(header, step.state, lines[1..]));
    } else {
      assert out + [] == out;
    }
  }

  /** When the loop reads every line, the output file holds exactly its result. */
  lemma {:induction false} WrittenComplete(header: string, s: ReformatState, lines: seq<string>)
    requires ReformatFrom(header, s, lines).Success?
    ensures Written(header, s, lines) == ReformatFrom(header, s, lines).value
    decreases |lines|
  {
    if lines != [] {
      var step := ReformatLine(header, s, lines[0]).value;
      WrittenComplete(header, step.state, lines[1..]);
    }
  }

  /**
   * When a line raises, the output file holds the output of the lines
   * before it, and reading one line more raises the same exception.
   */
  lemma {:induction false} WrittenBeforeFailure(header: string, s: ReformatState, lines: seq<string>)
    requires ReformatFrom(header, s, lines).Failure?
    ensures exists n :: (0 <= n < |lines|
      && ReformatFrom(header, s, lines[..n]) == Success(Written(header, s, lines))
      && ReformatFrom(header, s, lines[..n + 1]) == Failure(ReformatFrom(header, s, lines).error))
    decreases |lines|
  {
    var line := lines[0];
    if ReformatLine(header, s, line).Failure? {
      FailsAtFirst(header, s, lines);
    } else {
      var step := ReformatLine(header, s, line).value;
      var rest := lines[1..];
      WrittenBeforeFailure(header, step.state, rest);
      var n :| 0 <= n < |rest|
        && ReformatFrom(header, step.state, rest[..n]) == Success(Written(header, step.state, rest))
        && ReformatFrom(header, step.state, rest[..n + 1]) == Failure(ReformatFrom(header, step.state, rest).error);
      FailsLater(header, s, lines, n);
    }
  }

  lemma FailsAtFirst(header: string, s: ReformatState, lines: seq<string>)
    requires lines != [] && ReformatLine(header, s, lines[0]).Failure? && ReformatFrom(header, s, lines).Failure?
    ensures ReformatFrom(header, s, lines[..0]) == Success(Written(header, s, lines))
    ensures ReformatFrom(header, s, lines[..1]) == Failure(ReformatFrom(header, s, lines).error)
  {
    assert lines[..1] == [lines[0]] && [lines[0]][1..] == [];
  }

  lemma FailsLater(header: string, s: ReformatState, lines: seq<string>, n: nat)
    requires n + 1 < |lines| && ReformatLine(header, s, lines[0]).Success? && ReformatFrom(header, s, lines).Failure?
    requires var step := ReformatLine(header, s, lines[0]).value;
      && ReformatFrom(header, step.state, lines[1..]).Failure?
      && ReformatFrom(header, step.state, lines[1..][..n]) == Success(Written(header, step.state, lines[1..]))
      && ReformatFrom(header, step.state, lines[1..][..n + 1]) == Failure(ReformatFrom(header, step.state, lines[1..]).error)
    ensures ReformatFrom(header, s, lines[..n + 1]) == Success(Written(header, s, lines))
    ensures ReformatFrom(header, s, lines[..n + 2]) == Failure(ReformatFrom(header, s, lines).error)
  {
    assert lines[..n + 1][0] == lines[0] && lines[..n + 1][1..] == lines[1..][..n];
    assert lines[..n + 2][0] == lines[0] && lines[..n + 2][1..] == lines[1..][..n + 1];
  }

  /**
   * What the output file holds after the whole transform: its result when
   * it succeeds; otherwise the result of the lines before the one that
   * raised, on which the transform raises the same exception.
   */
  lemma ReformatWritten(file: seq<string>)
    ensures Reformat(file).Success? ==> WrittenFile(file) == Reformat(file).value
    ensures Reformat(file).Failure? ==> exists n :: (1 <= n < |file|
      && Reformat(file[..n]) == Success(WrittenFile(file))
      && Reformat(file[..n + 1]) == Failure(Reformat(file).error))
  {
    if file != [] {
      var header := file[0];
      if Reformat(file).Success? {
        WrittenComplete(header, Initial, file[1..]);
      } else {
        var lines := file[1..];
        WrittenBeforeFailure(header, Initial, lines);
        var n :| 0 <= n < |lines|
          && ReformatFrom(header, Initial, lines[..n]) == Success(Written(header, Initial, lines))
          && ReformatFrom(header, Initial, lines[..n + 1]) == Failure(ReformatFrom(header, Initial, lines).error);
        assert file[..n + 1][0] == header && file[..n + 1][1..] == lines[..n];
        assert file[..n + 2][0] == header && file[..n + 2][1..] == lines[..n + 1];
        assert Reformat(file[..n + 1]) == Success(WrittenFile(file));
      }
    }
  }

  /** One step of the loop, as the recursion takes it. */
  lemma Advance(header: string, s: ReformatState, lines: seq<string>)
    requires lines != []
    ensures ReformatLine(header, s, lines[0]).Failure? ==>
      ReformatFrom(header, s, lines) == Failure(ReformatLine(header, s, lines[0]).error)
    ensures ReformatLine(header, s, lines[0]).Success? ==>
      var step := ReformatLine(header, s, lines[0]).value;
      ReformatFrom(header, s, lines) == Prepend(step.written, ReformatFrom(header, step.state, lines[1..]))
  {
  }

  /** One step of the loop, as the output built so far sees it. */
  lemma AdvanceOutput(header: string, s: ReformatState, out: seq<string>, lines: seq<string>,
                      step: Result<Step, Raised>)
    requires lines != [] && step == ReformatLine(header, s, lines[0])
    ensures step.Failure? ==> Prepend(out, ReformatFrom(header, s, lines)) == Failure(step.error)
    ensures step.Success? ==>
      Prepend(out, ReformatFrom(header, s, lines))
      == Prepend(out + step.value.written, ReformatFrom(header, step.value.state, lines[1..]))
  {
    Advance(header, s, lines);
    if step.Success? {
      PrependTwice(out, step.value.written, ReformatFrom(header, step.value.state, lines[1..]));
    }
  }

  /** Every line tagged with the same state. */
  function Tagged(s: ReformatState, lines: seq<string>): (out: seq<string>)
    ensures |out| == |lines|
    ensures forall i :: 0 <= i < |lines| ==> out[i] == DataRow(s, lines[i])
  {
    if lines == [] then [] else [DataRow(s, lines[0])] + Tagged(s, lines[1..])
  }

  predicate Plain(lines: seq<string>) {
    forall i :: 0 <= i < |lines| ==> !StartsWith(lines[i], Marker)
  }

  /** A divider line that does not match the pattern is dropped and changes nothing. */
  lemma UnmatchedMarkerIgnored(header: string, s: ReformatState, line: string, rest: seq<string>)
    requires StartsWith(line, Marker) && MatchStepInfo(line).None?
    ensures ReformatFrom(header, s, [line] + rest) == ReformatFrom(header, s, rest)
  {
    assert ([line] + rest)[1..] == rest;
    PrependNothing(ReformatFrom(header, s, rest));
  }

  /** Lines that are not dividers are copied in order, each behind the current run and values. */
  lemma {:induction false} PlainLinesTagged(header: string, s: ReformatState, lines: seq<string>, rest: seq<string>)
    requires Plain(lines)
    ensures ReformatFrom(header, s, lines + rest) == Prepend(Tagged(s, lines), ReformatFrom(header, s, rest))
  {
    if lines != [] {
      assert (lines + rest)[0] == lines[0];
      assert (lines + rest)[1..] == lines[1..] + rest;
      PlainLinesTagged(header, s, lines[1..], rest);
      PrependTwice([DataRow(s, lines[0])], Tagged(s, lines[1..]), ReformatFrom(header, s, rest));
    } else {
      assert lines + rest == rest;
      PrependNothing(ReformatFrom(header, s, rest));
    }
  }

  /**
   * `divider` is a matching divider line whose parameter group reads as the
   * given names and values and whose run number is `run`.
   */
  predicate Announces(divider: string, names: seq<string>, values: seq<string>, run: string) {
    && StartsWith(divider, Marker)
    && MatchStepInfo(divider).Some?
    && MatchStepInfo(divider).value.run == run
    && NamesOf(Words(MatchStepInfo(divider).value.step)) == names
    && ValuesOf(Words(MatchStepInfo(divider).value.step)) == Success(values)
  }

  /** Every divider LTspice writes announces its own names, values and run number. */
  lemma MarkerLineAnnounces(names: seq<string>, values: seq<string>, run: string, total: string)
    requires |names| == |values|
    requires forall i :: 0 <= i < |names| ==> IsToken(names[i]) && IsToken(values[i])
    requires IsNumber(run) && IsNumber(total)
    ensures Announces(MarkerLine(names, values, run, total), names, values, run)
  {
    MarkerLineMatches(names, values, run, total);
    ParamsOfMarker(names, values);
  }

  /**
   * A divider switches the run number and values to the ones it announces;
   * the extended header is written if it is still pending, and nothing else.
   */
  lemma MarkerSwitchesRun(header: string, s: ReformatState, divider: string, names: seq<string>,
                          values: seq<string>, run: string, rest: seq<string>)
    requires Announces(divider, names, values, run)
    ensures ReformatFrom(header, s, [divider] + rest)
         == Prepend(if s.goHeader then [HeaderRow(names, header)] else [],
                    ReformatFrom(header, ReformatState(false, run, Join(values, "\t")), rest))
  {
    assert ([divider] + rest)[0] == divider && ([divider] + rest)[1..] == rest;
  }

  /** One run of an export: its divider, the values and run number it announces, and its data lines. */
  datatype Run = Run(divider: string, values: seq<string>, run: string, rows: seq<string>)

  predicate WellFormedRun(names: seq<string>, r: Run) {
    Announces(r.divider, names, r.values, r.run) && Plain(r.rows)
  }

  /** The lines of a stepped export after its header. */
  function ExportBody(runs: seq<Run>): seq<string> {
    if runs == [] then [] else [runs[0].divider] + runs[0].rows + ExportBody(runs[1..])
  }

  function RunState(r: Run): ReformatState {
    ReformatState(false, r.run, Join(r.values, "\t"))
  }

  /** The data lines of every run, each tagged with that run's number and values. */
  function TaggedRuns(runs: seq<Run>): seq<string> {
    if runs == [] then [] else Tagged(RunState(runs[0]), runs[0].rows) + TaggedRuns(runs[1..])
  }

  /** Once the header is written, each run's data lines come out behind that run's number and values. */
  lemma {:induction false} ReformatRuns(header: string, s: ReformatState, names: seq<string>, runs: seq<Run>)
    requires !s.goHeader
    requires forall k {:trigger WellFormedRun(names, runs[k])} :: 0 <= k < |runs| ==> WellFormedRun(names, runs[k])
    ensures ReformatFrom(header, s, ExportBody(runs)) == Success(TaggedRuns(runs))
    decreases |runs|
  {
    if runs != [] {
      ReformatRuns(header, RunState(runs[0]), names, runs[1..]);
      FirstRun(header, s, names, runs);
      assert [] + Tagged(RunState(runs[0]), runs[0].rows) == Tagged(RunState(runs[0]), runs[0].rows);
    }
  }

  /** The first run's divider and data lines, in front of whatever the later runs give. */
  lemma FirstRun(header: string, s: ReformatState, names: seq<string>, runs: seq<Run>)
    requires runs != [] && WellFormedRun(names, runs[0])
    ensures ReformatFrom(header, s, ExportBody(runs))
      == Prepend((if s.goHeader then [HeaderRow(names, header)] else []) + Tagged(RunState(runs[0]), runs[0].rows),
                 ReformatFrom(header, RunState(runs[0]), ExportBody(runs[1..])))
  {
    var r := runs[0];
    var later := ExportBody(runs[1..]);
    var head := if s.goHeader then [HeaderRow(names, header)] else [];
    ExportBodyCons(runs);
    PlainLinesTagged(header, RunState(r), r.rows, later);
    MarkerSwitchesRun(header, s, r.divider, names, r.values, r.run, r.rows + later);
    PrependTwice(head, Tagged(RunState(r), r.rows), ReformatFrom(header, RunState(r), later));
  }

  /**
   * A stepped export comes out as the extended header followed by every data
   * line behind its own run number and values; no divider line is copied.
   */
  lemma ReformatSteppedExport(header: string, names: seq<string>, runs: seq<Run>)
    requires runs != []
    requires forall k {:trigger WellFormedRun(names, runs[k])} :: 0 <= k < |runs| ==> WellFormedRun(names, runs[k])
    ensures Reformat([header] + ExportBody(runs)) == Success([HeaderRow(names, header)] + TaggedRuns(runs))
  {
    ReformatBody(header, ExportBody(runs));
    ReformatRuns(header, RunState(runs[0]), names, runs[1..]);
    FirstRun(header, Initial, names, runs);
    var head := [HeaderRow(names, header)];
    var first := Tagged(RunState(runs[0]), runs[0].rows);
    TaggedRunsCons(runs);
    Assoc(head, first, TaggedRuns(runs[1..]));
  }

  lemma ExportBodyCons(runs: seq<Run>)
    requires runs != []
    ensures ExportBody(runs) == [runs[0].divider] + (runs[0].rows + ExportBody(runs[1..]))
  {
    Assoc([runs[0].divider], runs[0].rows, ExportBody(runs[1..]));
  }

  lemma TaggedRunsCons(runs: seq<Run>)
    requires runs != []
    ensures TaggedRuns(runs) == Tagged(RunState(runs[0]), runs[0].rows) + TaggedRuns(runs[1..])
  {
  }

  lemma Assoc<T>(a: seq<T>, b: seq<T>, c: seq<T>)
    ensures a + b + c == a + (b + c)
  {
  }

  /** The first line is the header; the loop starts on the second. */
  lemma ReformatBody(header: string, body: seq<string>)
    ensures Reformat([header] + body) == ReformatFrom(header, Initial, body)
  {
    assert ([header] + body)[1..] == body;
  }

  /** Without any divider every line is copied behind run "0" and no values, and no extended header is written. */
  lemma ReformatUnstepped(header: string, lines: seq<string>)
    requires Plain(lines)
    ensures Reformat([header] + lines) == Success(Tagged(Initial, lines))
  {
    ReformatBody(header, lines);
    PlainLinesTagged(header, Initial, lines, []);
    assert lines + [] == lines;
  }

  /** The number of lines that are not dividers. */
  function CountPlain(lines: seq<string>): nat {
    if lines == [] then 0 else (if StartsWith(lines[0], Marker) then 0 else 1) + CountPlain(lines[1..])
  }

  predicate AnyMatch(lines: seq<string>) {
    exists i :: 0 <= i < |lines| && IsStepMarker(lines[i])
  }

  lemma AnyMatchCons(lines: seq<string>)
    requires lines != []
    ensures AnyMatch(lines) <==> IsStepMarker(lines[0]) || AnyMatch(lines[1..])
  {
    if AnyMatch(lines[1..]) {
      var i :| 0 <= i < |lines[1..]| && IsStepMarker(lines[1..][i]);
      assert IsStepMarker(lines[i + 1]);
    }
    if AnyMatch(lines) && !IsStepMarker(lines[0]) {
      var i :| 0 <= i < |lines| && IsStepMarker(lines[i]);
      assert i > 0 && IsStepMarker(lines[1..][i - 1]);
    }
  }

  /** One line writes itself unless it is a divider, plus the header at the first matching divider. */
  lemma LineCount(header: string, s: ReformatState, line: string)
    requires ReformatLine(header, s, line).Success?
    ensures var step := ReformatLine(header, s, line).value;
      && |step.written| == (if StartsWith(line, Marker) then 0 else 1) + (if s.goHeader && IsStepMarker(line) then 1 else 0)
      && step.state.goHeader == (s.goHeader && !IsStepMarker(line))
  {
  }

  /**
   * Whatever the file holds, one line is written per non-divider line, plus
   * the extended header exactly when it is pending and some divider matches.
   */
  lemma {:induction false} ReformatCount(header: string, s: ReformatState, lines: seq<string>)
    requires ReformatFrom(header, s, lines).Success?
    ensures |ReformatFrom(header, s, lines).value|
         == CountPlain(lines) + (if s.goHeader && AnyMatch(lines) then 1 else 0)
    decreases |lines|
  {
    if lines != [] {
      var step := ReformatLine(header, s, lines[0]).value;
      LineCount(header, s, lines[0]);
      ReformatCount(header, step.state, lines[1..]);
      AnyMatchCons(lines);
    }
  }
}
