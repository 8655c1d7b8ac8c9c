/**
 * `LTSpiceExport.__init__` (spicelib/log/ltsteps.py): reads an LTspice
 * "Export data as text" file into columns, one list per header, plus one
 * list per stepped parameter and `runno` when the file holds dividers.
 *
 * The constructor only fills `headers` and `dataset`; nothing changes them
 * afterwards, so the object is modelled by the value it ends with, and an
 * exception raised while reading is a `Failure`.
 */
module ExportReader {
  import opened Wrappers
  import opened Text
  import opened Values
  import opened Tables
  import opened StepInfo

  /** The key under which the run number of the current divider is kept. */
  const RunKey := "runno"

  /** `curr_dic`: the values of the last divider, kept for every later data line. */
  type Record = Table<string, Value>

  /** `dataset`: one list of values per column. */
  type Columns = Table<string, seq<Value>>

  /** `curr_dic[key] = try_convert_value(value)` for each parameter token, in order. */
  function RecordParams(current: Record, params: seq<string>, conv: Conversions): (r: Result<Record, Raised>)
    ensures current.Valid() && r.Success? ==> r.value.Valid()
    ensures r.Success? ==> forall k :: k in current.entries ==> k in r.value.entries
    ensures r.Failure? ==> r.error == ValueError
    decreases |params|
  {
    if params == [] then Success(current)
    else
      var kv :- KeyValue(params[0]);
      RecordParams(current.Put(kv.0, conv.convert(kv.1)), params[1..], conv)
  }

  /** `dataset[key] = []` for each key, in order. */
  function InitColumns(dataset: Columns, keys: seq<string>): (d: Columns)
    ensures dataset.Valid() ==> d.Valid()
    ensures forall k :: k in d.entries <==> k in dataset.entries || k in keys
    ensures forall k :: k in keys ==> d.entries[k] == []
    ensures forall k :: k in dataset.entries && k !in keys ==> d.entries[k] == dataset.entries[k]
    decreases |keys|
  {
    if keys == [] then dataset else InitColumns(dataset.Put(keys[0], []), keys[1..])
  }

  /** `dataset[key].append(curr_dic[key])` for each key of the record; KeyError for a column never created. */
  function AppendRecord(dataset: Columns, current: Record, keys: seq<string>): (r: Result<Columns, Raised>)
    requires forall i :: 0 <= i < |keys| ==> keys[i] in current.entries
    ensures r.Success? <==> forall i :: 0 <= i < |keys| ==> keys[i] in dataset.entries
    ensures r.Success? ==> forall k :: k in r.value.entries <==> k in dataset.entries
    ensures r.Success? && dataset.Valid() ==> r.value.Valid() && r.value.keys == dataset.keys
    ensures r.Failure? ==> r.error == KeyError
    decreases |keys|
  {
    if keys == [] then Success(dataset)
    else if keys[0] !in dataset.entries then Failure(KeyError)
    else
      var k := keys[0];
      AppendRecord(dataset.Put(k, dataset.entries[k] + [current.entries[k]]), current, keys[1..])
  }

  /**
   * `dataset[headers[i]].append(try_convert_value(values[i]))` for each field
   * from the `i`-th on; IndexError for a field past the last header, KeyError
   * for a header without a column.
   */
  function AppendFields(dataset: Columns, headers: seq<string>, values: seq<string>, i: nat, conv: Conversions)
    : (r: Result<Columns, Raised>)
    ensures r.Success? ==> forall k :: k in r.value.entries <==> k in dataset.entries
    ensures r.Success? && dataset.Valid() ==> r.value.Valid() && r.value.keys == dataset.keys
    ensures r.Failure? ==> r.error == IndexError || r.error == KeyError
    decreases |values| - i
  {
    if i >= |values| then Success(dataset)
    else if i >= |headers| then Failure(IndexError)
    else if headers[i] !in dataset.entries then Failure(KeyError)
    else
      var h := headers[i];
      AppendFields(dataset.Put(h, dataset.entries[h] + [conv.convert(values[i])]), headers, values, i + 1, conv)
  }

  /** The loop-carried state: the header flag, `curr_dic` and `dataset`. */
  datatype ExportState = ExportState(goHeader: bool, current: Record, dataset: Columns) {
    ghost predicate Valid() {
      current.Valid() && dataset.Valid()
    }
  }

  const Start := ExportState(true, Empty(), Empty())

  /** One iteration of the loop over the lines after the header. */
  function ExportLine(headers: seq<string>, st: ExportState, line: string, conv: Conversions)
    : (r: Result<ExportState, Raised>)
    requires st.Valid()
    ensures r.Success? ==> r.value.Valid()
  {
    if StartsWith(line, Marker) then
      match MatchStepInfo(line)
      case None => Success(st)
      case Some(m) =>
        var current :- RecordParams(st.current.Put(RunKey, StrValue(m.run)), Words(m.step), conv);
        if st.goHeader then
          Success(ExportState(false, current, InitColumns(InitColumns(st.dataset, headers), current.keys)))
        else Success(st.(current := current))
    else
      var values := Split(line, "\t");
      var withRecord :- AppendRecord(st.dataset, st.current, st.current.keys);
      var withFields :- AppendFields(withRecord, headers, values, 0, conv);
      Success(st.(dataset := withFields))
  }

  /** The loop from state `st` over `lines`. */
  function ExportFrom(headers: seq<string>, st: ExportState, lines: seq<string>, conv: Conversions)
    : (r: Result<ExportState, Raised>)
    requires st.Valid()
    ensures r.Success? ==> r.value.Valid()
    decreases |lines|
  {
    if lines == [] then Success(st)
    else
      var next :- ExportLine(headers, st, lines[0], conv);
      ExportFrom(headers, next, lines[1..], conv)
  }

  /** What the constructor leaves in `headers` and `dataset`. */
  datatype ExportData = ExportData(headers: seq<string>, dataset: Columns)

  /** The header line is split at tabs (its newline stays on the last header). */
  function HeadersOf(file: seq<string>): seq<string> {
    Split(if file == [] then "" else file[0], "\t")
  }

  function Export(file: seq<string>, conv: Conversions): Result<ExportData, Raised> {
    var headers := HeadersOf(file);
    var st :- ExportFrom(headers, Start, if file == [] then [] else file[1..], conv);
    Success(ExportData(headers, st.dataset))
  }

  /** The loop over the parameter tokens: `key, value = param.split('=')`, then store the converted value. */
  method StoreParams(current: Record, params: seq<string>, conv: Conversions) returns (r: Result<Record, Raised>)
    ensures r == RecordParams(current, params, conv)
  {
    var record := current;
    var i := 0;
    while i < |params|
      invariant 0 <= i <= |params|
      invariant RecordParams(current, params, conv) == RecordParams(record, params[i..], conv)
    {
      assert params[i..][0] == params[i] && params[i..][1..] == params[i + 1..];
      var parts := Split(params[i], "=");
      if |parts| != 2 {
        return Failure(ValueError);
      }
      record := record.Put(parts[0], conv.convert(parts[1]));
      i := i + 1;
    }
    assert params[i..] == [];
    return Success(record);
  }

  /** `for key in keys: dataset[key] = []` */
  method CreateColumns(dataset: Columns, keys: seq<string>) returns (d: Columns)
    ensures d == InitColumns(dataset, keys)
  {
    d := dataset;
    var i := 0;
    while i < |keys|
      invariant 0 <= i <= |keys|
      invariant InitColumns(dataset, keys) == InitColumns(d, keys[i..])
    {
      assert keys[i..][0] == keys[i] && keys[i..][1..] == keys[i + 1..];
      d := d.Put(keys[i], []);
      i := i + 1;
    }
    assert keys[i..] == [];
  }

  /** `for key in curr_dic: dataset[key].append(curr_dic[key])` */
  method AppendRecordValues(dataset: Columns, current: Record) returns (r: Result<Columns, Raised>)
    requires current.Valid()
    ensures r == AppendRecord(dataset, current, current.keys)
  {
    var keys := current.keys;
    var d := dataset;
    var i := 0;
    while i < |keys|
      invariant 0 <= i <= |keys|
      invariant AppendRecord(dataset, current, keys) == AppendRecord(d, current, keys[i..])
    {
      assert keys[i..][0] == keys[i] && keys[i..][1..] == keys[i + 1..];
      var k := keys[i];
      if k !in d.entries {
        return Failure(KeyError);
      }
      d := d.Put(k, d.entries[k] + [current.entries[k]]);
      i := i + 1;
    }
    assert keys[i..] == [];
    return Success(d);
  }

  /** `for i in range(len(values)): dataset[headers[i]].append(try_convert_value(values[i]))` */
  method AppendFieldValues(dataset: Columns, headers: seq<string>, values: seq<string>, conv: Conversions)
    returns (r: Result<Columns, Raised>)
    ensures r == AppendFields(dataset, headers, values, 0, conv)
  {
    var d := dataset;
    var i := 0;
    while i < |values|
      invariant 0 <= i <= |values|
      invariant AppendFields(dataset, headers, values, 0, conv) == AppendFields(d, headers, values, i, conv)
    {
      if i >= |headers| {
        return Failure(IndexError);
      }
      var h := headers[i];
      if h !in d.entries {
        return Failure(KeyError);
      }
      d := d.Put(h, d.entries[h] + [conv.convert(values[i])]);
      i := i + 1;
    }
    return Success(d);
  }

  /** The body of the loop over the lines after the header. */
  method ProcessLine(headers: seq<string>, st: ExportState, line: string, conv: Conversions)
    returns (r: Result<ExportState, Raised>)
    requires st.Valid()
    ensures r == ExportLine(headers, st, line, conv)
  {
    if StartsWith(line, Marker) {
      var m := MatchStepInfo(line);
      if m.None? {
        return Success(st);
      }
      var current := StoreParams(st.current.Put(RunKey, StrValue(m.value.run)), Words(m.value.step), conv);
      if current.Failure? {
        return Failure(current.error);
      }
      if st.goHeader {
        var dataset := CreateColumns(st.dataset, headers);
        dataset := CreateColumns(dataset, current.value.keys);
        return Success(ExportState(false, current.value, dataset));
      }
      return Success(st.(current := current.value));
    }
    var values := Split(line, "\t");
    var withRecord := AppendRecordValues(st.dataset, st.current);
    if withRecord.Failure? {
      return Failure(withRecord.error);
    }
    var withFields := AppendFieldValues(withRecord.value, headers, values, conv);
    if withFields.Failure? {
      return Failure(withFields.error);
    }
    return Success(st.(dataset := withFields.value));
  }

  /** The constructor: read the header line, then every other line in turn. */
  method ReadExport(file: seq<string>, conv: Conversions) returns (r: Result<ExportData, Raised>)
    ensures r == Export(file, conv)
  {
    var headers := HeadersOf(file);
    var lines := if file == [] then [] else file[1..];
    var st := Start;
    var i := 0;
    assert lines[i..] == lines;
    while i < |lines|
      invariant 0 <= i <= |lines| && st.Valid()
      invariant ExportFrom(headers, Start, lines, conv) == ExportFrom(headers, st, lines[i..], conv)
    {
      ExportAdvance(headers, st, lines, i, conv);
      var next := ProcessLine(headers, st, lines[i], conv);
      if next.Failure? {
        return Failure(next.error);
      }
      st := next.value;
      i := i + 1;
    }
    assert lines[i..] == [];
    return Success(ExportData(headers, st.dataset));
  }

  /** One line of the loop, as the recursion takes it. */
  lemma ExportAdvance(headers: seq<string>, st: ExportState, lines: seq<string>, i: nat, conv: Conversions)
    requires i < |lines| && st.Valid()
    ensures ExportLine(headers, st, lines[i], conv).Failure? ==>
      ExportFrom(headers, st, lines[i..], conv) == Failure(ExportLine(headers, st, lines[i], conv).error)
    ensures ExportLine(headers, st, lines[i], conv).Success? ==>
      ExportFrom(headers, st, lines[i..], conv)
      == ExportFrom(headers, ExportLine(headers, st, lines[i], conv).value, lines[i + 1..], conv)
  {
    assert lines[i..][0] == lines[i] && lines[i..][1..] == lines[i + 1..];
  }

  /**
   * Without a matching divider no column exists, so the first line that is
   * not a divider raises KeyError; a body made only of unmatched dividers
   * leaves the state as it was.
   */
  lemma {:induction false} NoDividerNoColumns(headers: seq<string>, lines: seq<string>, conv: Conversions)
    requires headers != []
    requires forall i :: 0 <= i < |lines| ==> !IsStepMarker(lines[i])
    ensures ExportFrom(headers, Start, lines, conv)
         == if forall i :: 0 <= i < |lines| ==> StartsWith(lines[i], Marker) then Success(Start) else Failure(KeyError)
    decreases |lines|
  {
    if lines != [] {
      if StartsWith(lines[0], Marker) {
        assert !IsStepMarker(lines[0]);
        NoDividerNoColumns(headers, lines[1..], conv);
        if !forall i :: 0 <= i < |lines| ==> StartsWith(lines[i], Marker) {
          var i :| 0 <= i < |lines| && !StartsWith(lines[i], Marker);
          assert !StartsWith(lines[1..][i - 1], Marker);
        }
      } else {
        var values := Split(lines[0], "\t");
        assert AppendRecord(Start.dataset, Start.current, Start.current.keys) == Success(Start.dataset);
        assert AppendFields(Start.dataset, headers, values, 0, conv) == Failure(KeyError);
      }
    }
  }

  /**
   * An export in which no divider matches raises KeyError as soon as it holds
   * a data line, and otherwise ends with an empty dataset.
   */
  lemma ExportNeedsDivider(file: seq<string>, conv: Conversions)
    requires file != []
    requires forall i :: 1 <= i < |file| ==> !IsStepMarker(file[i])
    ensures Export(file, conv).Success? <==> forall i :: 1 <= i < |file| ==> StartsWith(file[i], Marker)
    ensures Export(file, conv).Failure? ==> Export(file, conv).error == KeyError
    ensures Export(file, conv).Success? ==> Export(file, conv).value.dataset == Empty()
  {
    var lines := file[1..];
    forall i | 0 <= i < |lines| ensures !IsStepMarker(lines[i]) {
      assert lines[i] == file[i + 1];
    }
    NoDividerNoColumns(HeadersOf(file), lines, conv);
    if forall i :: 0 <= i < |lines| ==> StartsWith(lines[i], Marker) {
      forall i | 1 <= i < |file| ensures StartsWith(file[i], Marker) {
        assert file[i] == lines[i - 1];
      }
    } else {
      var i :| 0 <= i < |lines| && !StartsWith(lines[i], Marker);
      assert file[i + 1] == lines[i];
    }
  }

  /** `params[i]` splits at `=` into `names[i]` and `values[i]`, for every `i`. */
  predicate SplitsInto(params: seq<string>, names: seq<string>, values: seq<string>) {
    && |params| == |names| == |values|
    && forall i :: 0 <= i < |params| ==> KeyValue(params[i]) == Success((names[i], values[i]))
  }

  predicate Distinct(names: seq<string>) {
    forall i, j :: 0 <= i < j < |names| ==> names[i] != names[j]
  }

  /** Storing a divider's parameters gives every name its converted value and leaves other keys alone. */
  lemma {:induction false} StoreAssignments(current: Record, params: seq<string>, names: seq<string>,
                                            values: seq<string>, conv: Conversions)
    requires SplitsInto(params, names, values) && Distinct(names)
    ensures RecordParams(current, params, conv).Success?
    ensures var r := RecordParams(current, params, conv).value;
      forall i :: 0 <= i < |names| ==> r.Get(names[i]) == Some(conv.convert(values[i]))
    ensures var r := RecordParams(current, params, conv).value;
      forall k :: k !in names ==> r.Get(k) == current.Get(k)
    decreases |params|
  {
    if params != [] {
      SplitsIntoTail(params, names, values);
      var next := current.Put(names[0], conv.convert(values[0]));
      StoreAssignments(next, params[1..], names[1..], values[1..], conv);
      RecordParamsCons(current, params, names[0], values[0], conv);
      var r := RecordParams(next, params[1..], conv).value;
      forall i | 0 <= i < |names| ensures r.Get(names[i]) == Some(conv.convert(values[i])) {
        if i > 0 {
          assert names[i] == names[1..][i - 1] && values[i] == values[1..][i - 1];
        } else {
          assert names[0] !in names[1..];
        }
      }
    }
  }

  lemma SplitsIntoTail(params: seq<string>, names: seq<string>, values: seq<string>)
    requires SplitsInto(params, names, values) && Distinct(names) && params != []
    ensures SplitsInto(params[1..], names[1..], values[1..]) && Distinct(names[1..])
    ensures KeyValue(params[0]) == Success((names[0], values[0]))
  {
    forall i | 0 <= i < |params[1..]|
      ensures KeyValue(params[1..][i]) == Success((names[1..][i], values[1..][i]))
    {
      assert KeyValue(params[i + 1]) == Success((names[i + 1], values[i + 1]));
    }
  }

  lemma RecordParamsCons(current: Record, params: seq<string>, name: string, value: string, conv: Conversions)
    requires params != [] && KeyValue(params[0]) == Success((name, value))
    ensures RecordParams(current, params, conv) == RecordParams(current.Put(name, conv.convert(value)), params[1..], conv)
  {
  }

  /**
   * What a matched divider does: its run number, as text, goes under `runno`
   * and each assignment's converted value under its name; the first divider
   * also creates an empty column for every header and every stored key, and
   * later ones leave the columns alone.
   */
  lemma MatchedDivider(headers: seq<string>, st: ExportState, line: string, names: seq<string>, values: seq<string>,
                       run: string, conv: Conversions)
    requires st.Valid()
    requires StartsWith(line, Marker)
    requires MatchStepInfo(line).Some? && MatchStepInfo(line).value.run == run
    requires SplitsInto(Words(MatchStepInfo(line).value.step), names, values) && Distinct(names)
    ensures ExportLine(headers, st, line, conv).Success?
    ensures var r := ExportLine(headers, st, line, conv).value;
      && !r.goHeader
      && (forall i :: 0 <= i < |names| ==> r.current.Get(names[i]) == Some(conv.convert(values[i])))
      && (RunKey !in names ==> r.current.Get(RunKey) == Some(StrValue(run)))
      && (forall k :: k != RunKey && k !in names ==> r.current.Get(k) == st.current.Get(k))
    ensures var r := ExportLine(headers, st, line, conv).value;
      && (st.goHeader ==> forall k :: k in headers || k in r.current.entries ==> r.dataset.Get(k) == Some([]))
      && (st.goHeader ==> forall k :: k !in headers && k !in r.current.entries ==> r.dataset.Get(k) == st.dataset.Get(k))
      && (!st.goHeader ==> r.dataset == st.dataset)
  {
    var params := Words(MatchStepInfo(line).value.step);
    var start := st.current.Put(RunKey, StrValue(run));
    DividerRecord(st.current, params, names, values, run, conv);
    var current := RecordParams(start, params, conv).value;
    var r := ExportLine(headers, st, line, conv);
    if st.goHeader {
      FirstDividerColumns(st.dataset, headers, current);
      assert r == Success(ExportState(false, current, InitColumns(InitColumns(st.dataset, headers), current.keys)));
    } else {
      assert r == Success(st.(current := current));
    }
  }

  /** The record a divider leaves: the run number under `runno`, each assignment under its name. */
  lemma DividerRecord(current: Record, params: seq<string>, names: seq<string>, values: seq<string>, run: string,
                      conv: Conversions)
    requires current.Valid()
    requires SplitsInto(params, names, values) && Distinct(names)
    ensures RecordParams(current.Put(RunKey, StrValue(run)), params, conv).Success?
    ensures var r := RecordParams(current.Put(RunKey, StrValue(run)), params, conv).value;
      && (forall i :: 0 <= i < |names| ==> r.Get(names[i]) == Some(conv.convert(values[i])))
      && (RunKey !in names ==> r.Get(RunKey) == Some(StrValue(run)))
      && (forall k :: k != RunKey && k !in names ==> r.Get(k) == current.Get(k))
  {
    StoreAssignments(current.Put(RunKey, StrValue(run)), params, names, values, conv);
  }

  /** The columns the first divider creates: empty ones for the headers and the record's keys. */
  lemma FirstDividerColumns(dataset: Columns, headers: seq<string>, current: Record)
    requires current.Valid()
    ensures var d := InitColumns(InitColumns(dataset, headers), current.keys);
      && (forall k :: k in headers || k in current.entries ==> d.Get(k) == Some([]))
      && (forall k :: k !in headers && k !in current.entries ==> d.Get(k) == dataset.Get(k))
  {
    var d0 := InitColumns(dataset, headers);
    var d := InitColumns(d0, current.keys);
    forall k | k in headers || k in current.entries ensures d.Get(k) == Some([]) {
      if k !in current.keys {
        assert k in d0.entries && d0.entries[k] == [];
      }
    }
    forall k | k !in headers && k !in current.entries ensures d.Get(k) == dataset.Get(k) {
      assert k !in current.keys;
    }
  }

  /**
   * The divider LTspice writes before each run, with distinct parameter names,
   * stores the run number and every parameter as `MatchedDivider` describes.
   */
  lemma DividerLine(headers: seq<string>, st: ExportState, names: seq<string>, values: seq<string>,
                    run: string, total: string, conv: Conversions)
    requires st.Valid()
    requires |names| == |values|
    requires forall i :: 0 <= i < |names| ==> IsToken(names[i]) && IsToken(values[i])
    requires Distinct(names)
    requires IsNumber(run) && IsNumber(total)
    ensures ExportLine(headers, st, MarkerLine(names, values, run, total), conv).Success?
    ensures var r := ExportLine(headers, st, MarkerLine(names, values, run, total), conv).value;
      && !r.goHeader
      && (forall i :: 0 <= i < |names| ==> r.current.Get(names[i]) == Some(conv.convert(values[i])))
      && (RunKey !in names ==> r.current.Get(RunKey) == Some(StrValue(run)))
      && (forall k :: k != RunKey && k !in names ==> r.current.Get(k) == st.current.Get(k))
  {
    var line := MarkerLine(names, values, run, total);
    MarkerLineMatches(names, values, run, total);
    AssignmentWords(names, values);
    var a := Assignments(names, values);
    forall i | 0 <= i < |a| ensures KeyValue(a[i]) == Success((names[i], values[i])) {
      assert Split(a[i], "=") == [names[i], values[i]];
    }
    MatchedDivider(headers, st, line, names, values, run, conv);
  }

  /** Appending the record's values: each listed key gains its value at the end, nothing else changes. */
  lemma {:induction false} AppendRecordEffect(dataset: Columns, current: Record, keys: seq<string>)
    requires forall i :: 0 <= i < |keys| ==> keys[i] in current.entries && keys[i] in dataset.entries
    requires forall i, j :: 0 <= i < j < |keys| ==> keys[i] != keys[j]
    ensures var r := AppendRecord(dataset, current, keys);
      && r.Success?
      && (forall k :: k in keys ==> r.value.entries[k] == dataset.entries[k] + [current.entries[k]])
      && (forall k :: k in dataset.entries && k !in keys ==> r.value.entries[k] == dataset.entries[k])
    decreases |keys|
  {
    if keys != [] {
      var k0 := keys[0];
      var next := dataset.Put(k0, dataset.entries[k0] + [current.entries[k0]]);
      AppendRecordEffect(next, current, keys[1..]);
      assert k0 !in keys[1..];
      forall k | k in keys && k != k0 ensures k in keys[1..] {
        var i :| 0 <= i < |keys| && keys[i] == k;
        assert keys[1..][i - 1] == k;
      }
    }
  }

  /** The converted fields from the `i`-th on whose header is `k`, in field order. */
  function FieldsFor(headers: seq<string>, values: seq<string>, i: nat, k: string, conv: Conversions): seq<Value>
    decreases |values| - i
  {
    if i >= |values| || i >= |headers| then []
    else (if headers[i] == k then [conv.convert(values[i])] else []) + FieldsFor(headers, values, i + 1, k, conv)
  }

  /**
   * Appending the fields from the `i`-th on, for a line with no more fields
   * than headers: every column gains, at its end and in field order, the
   * converted fields whose header it is, and nothing else; a header past
   * the line's last field gains nothing.
   */
  lemma {:induction false} AppendFieldsEffect(dataset: Columns, headers: seq<string>, values: seq<string>, i: nat,
                                              conv: Conversions)
    requires |values| <= |headers|
    requires forall j :: i <= j < |values| ==> headers[j] in dataset.entries
    ensures var r := AppendFields(dataset, headers, values, i, conv);
      && r.Success?
      && forall k :: k in dataset.entries ==>
           r.value.entries[k] == dataset.entries[k] + FieldsFor(headers, values, i, k, conv)
    decreases |values| - i
  {
    if i < |values| {
      var h := headers[i];
      var next := dataset.Put(h, dataset.entries[h] + [conv.convert(values[i])]);
      AppendFieldsEffect(next, headers, values, i + 1, conv);
      assert AppendFields(dataset, headers, values, i, conv) == AppendFields(next, headers, values, i + 1, conv);
      forall k | k in dataset.entries
        ensures next.entries[k] + FieldsFor(headers, values, i + 1, k, conv)
             == dataset.entries[k] + FieldsFor(headers, values, i, k, conv)
      {
        AppendFieldStep(dataset, headers, values, i, k, conv);
      }
    }
  }

  /** One field's share: what column `k` holds after it, followed by what the later fields give. */
  lemma AppendFieldStep(dataset: Columns, headers: seq<string>, values: seq<string>, i: nat, k: string, conv: Conversions)
    requires i < |values| <= |headers| && headers[i] in dataset.entries && k in dataset.entries
    ensures var h := headers[i];
      var next := dataset.Put(h, dataset.entries[h] + [conv.convert(values[i])]);
      next.entries[k] + FieldsFor(headers, values, i + 1, k, conv) == dataset.entries[k] + FieldsFor(headers, values, i, k, conv)
  {
    var h := headers[i];
    var v := conv.convert(values[i]);
    var rest := FieldsFor(headers, values, i + 1, k, conv);
    var next := dataset.Put(h, dataset.entries[h] + [v]);
    if k == h {
      assert next.entries[k] == dataset.entries[k] + [v];
      assert FieldsFor(headers, values, i, k, conv) == [v] + rest;
      ConcatAssoc(dataset.entries[k], [v], rest);
    } else {
      assert next.entries[k] == dataset.entries[k];
      assert [] + rest == rest;
      assert FieldsFor(headers, values, i, k, conv) == rest;
    }
  }

  /** A column that is the header of no field from the `i`-th on gains nothing from them. */
  lemma {:induction false} FieldsForNone(headers: seq<string>, values: seq<string>, i: nat, k: string, conv: Conversions)
    requires |values| <= |headers|
    requires forall j :: i <= j < |values| ==> headers[j] != k
    ensures FieldsFor(headers, values, i, k, conv) == []
    decreases |values| - i
  {
    if i < |values| {
      FieldsForNone(headers, values, i + 1, k, conv);
    }
  }

  /** With distinct headers over the fields from the `i`-th on, the `j`-th header gains exactly the `j`-th field. */
  lemma {:induction false} FieldsForOne(headers: seq<string>, values: seq<string>, i: nat, j: nat, conv: Conversions)
    requires i <= j < |values| <= |headers|
    requires forall a, b :: i <= a < b < |values| ==> headers[a] != headers[b]
    ensures FieldsFor(headers, values, i, headers[j], conv) == [conv.convert(values[j])]
    decreases j - i
  {
    var rest := FieldsFor(headers, values, i + 1, headers[j], conv);
    if i == j {
      FieldsForNone(headers, values, i + 1, headers[j], conv);
      assert [conv.convert(values[j])] + rest == [conv.convert(values[j])];
    } else {
      assert headers[i] != headers[j];
      FieldsForOne(headers, values, i + 1, j, conv);
      assert FieldsFor(headers, values, i, headers[j], conv) == [] + rest;
    }
  }

  /**
   * With distinct headers over the line's fields, each header from field
   * `i` to the line's last field gains its own converted field.
   */
  lemma AppendFieldsAppended(dataset: Columns, headers: seq<string>, values: seq<string>, i: nat, conv: Conversions)
    requires |values| <= |headers|
    requires forall j :: i <= j < |values| ==> headers[j] in dataset.entries
    requires forall a, b :: i <= a < b < |values| ==> headers[a] != headers[b]
    ensures var r := AppendFields(dataset, headers, values, i, conv);
      && r.Success?
      && (forall j :: i <= j < |values| ==>
            r.value.entries[headers[j]] == dataset.entries[headers[j]] + [conv.convert(values[j])])
  {
    AppendFieldsEffect(dataset, headers, values, i, conv);
    forall j | i <= j < |values|
      ensures FieldsFor(headers, values, i, headers[j], conv) == [conv.convert(values[j])]
    {
      FieldsForOne(headers, values, i, j, conv);
    }
  }

  /**
   * A column that is the header of no field from the `i`-th on keeps its
   * values: every other column, and every header past the line's last field
   * that no earlier field shares.
   */
  lemma AppendFieldsKeeps(dataset: Columns, headers: seq<string>, values: seq<string>, i: nat, conv: Conversions)
    requires i <= |values| <= |headers|
    requires forall j :: i <= j < |values| ==> headers[j] in dataset.entries
    ensures var r := AppendFields(dataset, headers, values, i, conv);
      && r.Success?
      && forall k :: k in dataset.entries && k !in headers[i..|values|] ==> r.value.entries[k] == dataset.entries[k]
  {
    AppendFieldsEffect(dataset, headers, values, i, conv);
    forall k | k in dataset.entries && k !in headers[i..|values|]
      ensures FieldsFor(headers, values, i, k, conv) == []
    {
      forall j | i <= j < |values| ensures headers[j] != k {
        assert headers[j] == headers[i..|values|][j - i];
      }
      FieldsForNone(headers, values, i, k, conv);
    }
  }

  /** A data line with more fields than there are headers raises IndexError. */
  lemma {:induction false} AppendFieldsOverflow(dataset: Columns, headers: seq<string>, values: seq<string>, i: nat,
                                                conv: Conversions)
    requires i <= |headers| < |values|
    requires forall j :: 0 <= j < |headers| ==> headers[j] in dataset.entries
    ensures AppendFields(dataset, headers, values, i, conv) == Failure(IndexError)
    decreases |headers| - i
  {
    if i < |headers| {
      var h := headers[i];
      AppendFieldsOverflow(dataset.Put(h, dataset.entries[h] + [conv.convert(values[i])]), headers, values, i + 1, conv);
    }
  }

  /** The conditions under which a data line finds every column it appends to. */
  predicate Ready(headers: seq<string>, st: ExportState) {
    && (forall i :: 0 <= i < |headers| ==> headers[i] in st.dataset.entries)
    && (forall k :: k in st.current.entries ==> k in st.dataset.entries)
  }

  /**
   * What one data line adds to column `k`: the value stored under `k` by
   * the last divider, if any, then the line's fields whose header is `k`.
   */
  function LineGain(headers: seq<string>, current: Record, fields: seq<string>, k: string, conv: Conversions): seq<Value> {
    (if k in current.entries then [current.entries[k]] else []) + FieldsFor(headers, fields, 0, k, conv)
  }

  /**
   * A data line after the first divider, with no more fields than headers:
   * every column gains exactly `LineGain` at its end (nothing, for a header
   * past the line's last field that is no stored key), and the record and
   * the key order are kept.
   */
  lemma DataLine(headers: seq<string>, st: ExportState, line: string, conv: Conversions)
    requires st.Valid() && Ready(headers, st)
    requires !StartsWith(line, Marker)
    requires |Split(line, "\t")| <= |headers|
    ensures var r := ExportLine(headers, st, line, conv);
      && r.Success?
      && r.value.goHeader == st.goHeader && r.value.current == st.current
      && r.value.dataset.keys == st.dataset.keys
      && (forall k :: k in r.value.dataset.entries <==> k in st.dataset.entries)
      && (forall k :: k in st.dataset.entries ==>
            r.value.dataset.entries[k] == st.dataset.entries[k] + LineGain(headers, st.current, Split(line, "\t"), k, conv))
  {
    var fields := Split(line, "\t");
    var cur := st.current;
    AppendLine(st.dataset, cur, headers, fields, conv);
    var withRecord := AppendRecord(st.dataset, cur, cur.keys).value;
    DataLineStores(headers, st, line, conv, withRecord, AppendFields(withRecord, headers, fields, 0, conv).value);
  }

  /** The record's values, then the fields, appended to the columns: each column gains its `LineGain`. */
  lemma AppendLine(dataset: Columns, current: Record, headers: seq<string>, fields: seq<string>, conv: Conversions)
    requires dataset.Valid() && current.Valid()
    requires |fields| <= |headers|
    requires forall i :: 0 <= i < |headers| ==> headers[i] in dataset.entries
    requires forall k :: k in current.entries ==> k in dataset.entries
    ensures AppendRecord(dataset, current, current.keys).Success?
    ensures var withRecord := AppendRecord(dataset, current, current.keys).value;
      var r := AppendFields(withRecord, headers, fields, 0, conv);
      && r.Success?
      && r.value.keys == dataset.keys
      && (forall k :: k in r.value.entries <==> k in dataset.entries)
      && (forall k :: k in dataset.entries ==>
            r.value.entries[k] == dataset.entries[k] + LineGain(headers, current, fields, k, conv))
  {
    RecordGain(dataset, current);
    var withRecord := AppendRecord(dataset, current, current.keys).value;
    AppendFieldsEffect(withRecord, headers, fields, 0, conv);
    var withFields := AppendFields(withRecord, headers, fields, 0, conv).value;
    forall k | k in dataset.entries
      ensures withFields.entries[k] == dataset.entries[k] + LineGain(headers, current, fields, k, conv)
    {
      var rec := if k in current.entries then [current.entries[k]] else [];
      ConcatAssoc(dataset.entries[k], rec, FieldsFor(headers, fields, 0, k, conv));
    }
  }

  /** Appending a valid record: every column gains the record's value for it, if it has one. */
  lemma RecordGain(dataset: Columns, current: Record)
    requires current.Valid()
    requires forall k :: k in current.entries ==> k in dataset.entries
    ensures var r := AppendRecord(dataset, current, current.keys);
      && r.Success?
      && forall k :: k in dataset.entries ==>
           r.value.entries[k] == dataset.entries[k] + (if k in current.entries then [current.entries[k]] else [])
  {
    assert forall k :: k in current.keys <==> k in current.entries;
    AppendRecordEffect(dataset, current, current.keys);
    var withRecord := AppendRecord(dataset, current, current.keys).value;
    forall k | k in dataset.entries
      ensures withRecord.entries[k] == dataset.entries[k] + (if k in current.entries then [current.entries[k]] else [])
    {
      if k in current.entries {
        assert k in current.keys;
      } else {
        assert k !in current.keys;
      }
    }
  }

  /** A data line stores the record, then the fields, into the dataset and changes nothing else. */
  lemma DataLineStores(headers: seq<string>, st: ExportState, line: string, conv: Conversions,
                       withRecord: Columns, withFields: Columns)
    requires st.Valid() && !StartsWith(line, Marker)
    requires AppendRecord(st.dataset, st.current, st.current.keys) == Success(withRecord)
    requires AppendFields(withRecord, headers, Split(line, "\t"), 0, conv) == Success(withFields)
    ensures ExportLine(headers, st, line, conv) == Success(st.(dataset := withFields))
  {
  }

  /** A data line with more fields than headers raises IndexError. */
  lemma ExtraFieldFails(headers: seq<string>, st: ExportState, line: string, conv: Conversions)
    requires st.Valid() && Ready(headers, st)
    requires !StartsWith(line, Marker)
    requires |Split(line, "\t")| > |headers|
    ensures ExportLine(headers, st, line, conv) == Failure(IndexError)
  {
    var cur := st.current;
    assert forall k :: k in cur.keys <==> k in cur.entries;
    AppendRecordEffect(st.dataset, cur, cur.keys);
    var withRecord := AppendRecord(st.dataset, cur, cur.keys).value;
    AppendFieldsOverflow(withRecord, headers, Split(line, "\t"), 0, conv);
  }

  /** What a run of data lines adds to column `k`, line after line. */
  function RowsGain(headers: seq<string>, current: Record, rows: seq<string>, k: string, conv: Conversions): seq<Value> {
    if rows == [] then []
    else LineGain(headers, current, Split(rows[0], "\t"), k, conv) + RowsGain(headers, current, rows[1..], k, conv)
  }

  /**
   * After the columns exist, a run of data lines with no more fields than
   * headers adds to every column exactly what each line gives it, in file
   * order, and keeps the record and the columns' keys.
   */
  lemma {:induction false} DataRows(headers: seq<string>, st: ExportState, rows: seq<string>, conv: Conversions)
    requires st.Valid() && Ready(headers, st)
    requires forall r :: 0 <= r < |rows| ==> !StartsWith(rows[r], Marker) && |Split(rows[r], "\t")| <= |headers|
    ensures var r := ExportFrom(headers, st, rows, conv);
      && r.Success?
      && r.value.current == st.current
      && (forall k :: k in r.value.dataset.entries <==> k in st.dataset.entries)
      && (forall k :: k in st.dataset.entries ==>
            r.value.dataset.entries[k] == st.dataset.entries[k] + RowsGain(headers, st.current, rows, k, conv))
    decreases |rows|
  {
    if rows != [] {
      DataLine(headers, st, rows[0], conv);
      var next := ExportLine(headers, st, rows[0], conv).value;
      assert Ready(headers, next);
      forall r | 0 <= r < |rows[1..]|
        ensures !StartsWith(rows[1..][r], Marker) && |Split(rows[1..][r], "\t")| <= |headers|
      {
        assert rows[1..][r] == rows[r + 1];
      }
      DataRows(headers, next, rows[1..], conv);
      forall k | k in st.dataset.entries
        ensures ExportFrom(headers, next, rows[1..], conv).value.dataset.entries[k]
             == st.dataset.entries[k] + RowsGain(headers, st.current, rows, k, conv)
      {
        ConcatAssoc(st.dataset.entries[k], LineGain(headers, st.current, Split(rows[0], "\t"), k, conv),
                    RowsGain(headers, st.current, rows[1..], k, conv));
      }
    }
  }

  /**
   * A line with one field per distinct header, none of them a stored key,
   * gives one value to each header's and each stored key's column, and none
   * to any other column.
   */
  lemma FullLineGain(headers: seq<string>, current: Record, fields: seq<string>, k: string, conv: Conversions)
    requires |fields| == |headers|
    requires forall a, b :: 0 <= a < b < |headers| ==> headers[a] != headers[b]
    requires forall a :: 0 <= a < |headers| ==> headers[a] !in current.entries
    ensures |LineGain(headers, current, fields, k, conv)| == (if k in current.entries || k in headers then 1 else 0)
  {
    if k in headers {
      var j :| 0 <= j < |headers| && headers[j] == k;
      FieldsForOne(headers, fields, 0, j, conv);
    } else {
      FieldsForNone(headers, fields, 0, k, conv);
    }
  }

  /**
   * A run of such lines adds one value per line to every header's and every
   * stored key's column, and nothing to any other column.
   */
  lemma {:induction false} FullRowsGain(headers: seq<string>, current: Record, rows: seq<string>, k: string, conv: Conversions)
    requires forall r :: 0 <= r < |rows| ==> |Split(rows[r], "\t")| == |headers|
    requires forall a, b :: 0 <= a < b < |headers| ==> headers[a] != headers[b]
    requires forall a :: 0 <= a < |headers| ==> headers[a] !in current.entries
    ensures |RowsGain(headers, current, rows, k, conv)| == (if k in current.entries || k in headers then |rows| else 0)
  {
    if rows != [] {
      FullLineGain(headers, current, Split(rows[0], "\t"), k, conv);
      forall r | 0 <= r < |rows[1..]| ensures |Split(rows[1..][r], "\t")| == |headers| {
        assert rows[1..][r] == rows[r + 1];
      }
      FullRowsGain(headers, current, rows[1..], k, conv);
    }
  }
}
