/**
 * The measurement section of an LTspice log, as `LTSpiceLogReader.__init__`
 * (spicelib/log/ltsteps.py) reads it after the preamble: blocks that start
 * with a `Measurement: <name>` line, hold one tab-separated header row and
 * data rows that start with an integer, and are stored into `dataset` one
 * column per header when the next block starts or the input ends.
 *
 * A header row read before any `Measurement: ` line carries the name None,
 * which Python accepts as a dictionary key, so the dataset's keys are
 * `Option<string>`.
 */
module Measurements {
  import opened Wrappers
  import opened Text
  import opened Values
  import opened Tables

  /** The line that opens a block; the name is the text after its 13 characters. */
  const MeasurementTag := "Measurement: "

  type Dataset = Table<Option<string>, seq<Value>>

  /**
   * The loop's local state: `dataname`, `headers` and `measurements` (the
   * data rows gathered since the last header row, each converted).
   */
  datatype Block = Block(dataname: Option<string>, headers: seq<Option<string>>, rows: seq<seq<Value>>)

  const NoBlock := Block(None, [], [])

  /** Python truthiness of `dataname`: neither None nor empty. */
  predicate Truthy(name: Option<string>) {
    name.Some? && name.value != ""
  }

  /** `try_convert_value` applied to every token of a data row. */
  function ConvertAll(tokens: seq<string>, conv: Conversions): (vs: seq<Value>)
    ensures |vs| == |tokens|
    ensures forall i :: 0 <= i < |tokens| ==> vs[i] == conv.convert(tokens[i])
  {
    seq(|tokens|, i requires 0 <= i < |tokens| => conv.convert(tokens[i]))
  }

  // ----- Storing a block -----

  /** `[measure[k] for measure in measurements]`: IndexError when a row has no field `k`. */
  function Column(rows: seq<seq<Value>>, k: nat): (r: Result<seq<Value>, Raised>)
    ensures r.Success? <==> forall j :: 0 <= j < |rows| ==> k < |rows[j]|
    ensures r.Success? ==> |r.value| == |rows| && forall j :: 0 <= j < |rows| ==> r.value[j] == rows[j][k]
    ensures r.Failure? ==> r.error == IndexError
  {
    if rows == [] then Success([])
    else if k < |rows[0]| then
      var rest :- Column(rows[1..], k);
      Success([rows[0][k]] + rest)
    else Failure(IndexError)
  }

  /** `for k, title in enumerate(headers): dataset[title] = ...`, from header `k` on. */
  function StoreColumns(headers: seq<Option<string>>, rows: seq<seq<Value>>, k: nat, dataset: Dataset)
    : Result<Dataset, Raised>
    decreases |headers| - k
  {
    if k >= |headers| then Success(dataset)
    else
      var column :- Column(rows, k);
      StoreColumns(headers, rows, k + 1, dataset.Put(headers[k], column))
  }

  /** Storing a block: every header gets its column of the block's rows. */
  function Store(headers: seq<Option<string>>, rows: seq<seq<Value>>, dataset: Dataset): Result<Dataset, Raised> {
    StoreColumns(headers, rows, 0, dataset)
  }

  /** The index of the last occurrence of `x` in `s`, or -1. */
  function LastAt<T(==)>(s: seq<T>, x: T): (i: int)
    ensures -1 <= i < |s|
    ensures 0 <= i ==> s[i] == x && forall j :: i < j < |s| ==> s[j] != x
    ensures i < 0 ==> x !in s
  {
    if s == [] then -1
    else if s[|s| - 1] == x then |s| - 1
    else LastAt(s[..|s| - 1], x)
  }

  /** Every row has at least `n` fields. */
  predicate Fits(rows: seq<seq<Value>>, n: nat) {
    forall j :: 0 <= j < |rows| ==> n <= |rows[j]|
  }

  /**
   * From header `k` on: the store fails, with IndexError, exactly when some
   * row is shorter than the headers; otherwise every header from `k` on holds,
   * in row order, the rows' field at the header's last position, and every
   * other key keeps what it had.
   */
  lemma {:induction false} StoreColumnsEffect(headers: seq<Option<string>>, rows: seq<seq<Value>>, k: nat, dataset: Dataset)
    requires k <= |headers|
    ensures StoreColumns(headers, rows, k, dataset).Success? <==> k == |headers| || Fits(rows, |headers|)
    ensures StoreColumns(headers, rows, k, dataset).Failure? ==> StoreColumns(headers, rows, k, dataset).error == IndexError
    ensures dataset.Valid() && StoreColumns(headers, rows, k, dataset).Success? ==>
      StoreColumns(headers, rows, k, dataset).value.Valid()
    ensures StoreColumns(headers, rows, k, dataset).Success? ==> forall h :: LastAt(headers, h) < k ==>
      StoreColumns(headers, rows, k, dataset).value.Get(h) == dataset.Get(h)
    ensures StoreColumns(headers, rows, k, dataset).Success? && k < |headers| ==>
      && Fits(rows, |headers|)
      && forall h :: LastAt(headers, h) >= k ==>
        var column := StoreColumns(headers, rows, k, dataset).value.Get(h);
        && column.Some? && |column.value| == |rows|
        && forall j :: 0 <= j < |rows| ==> column.value[j] == rows[j][LastAt(headers, h)]
  {
    StoreColumnsOk(headers, rows, k, dataset);
    if dataset.Valid() {
      StoreColumnsValid(headers, rows, k, dataset);
    }
    StoreColumnsKeeps(headers, rows, k, dataset);
    StoreColumnsStored(headers, rows, k, dataset);
  }

  lemma {:induction false} StoreColumnsOk(headers: seq<Option<string>>, rows: seq<seq<Value>>, k: nat, dataset: Dataset)
    requires k <= |headers|
    ensures StoreColumns(headers, rows, k, dataset).Success? <==> k == |headers| || Fits(rows, |headers|)
    ensures StoreColumns(headers, rows, k, dataset).Failure? ==> StoreColumns(headers, rows, k, dataset).error == IndexError
    decreases |headers| - k
  {
    if k < |headers| {
      var column := Column(rows, k);
      if column.Success? {
        StoreColumnsOk(headers, rows, k + 1, dataset.Put(headers[k], column.value));
        if k + 1 == |headers| {
          forall j | 0 <= j < |rows| ensures |headers| <= |rows[j]| {
            assert k < |rows[j]|;
          }
        }
      } else {
        var j :| 0 <= j < |rows| && k >= |rows[j]|;
        assert !(|headers| <= |rows[j]|);
      }
    }
  }

  lemma {:induction false} StoreColumnsValid(headers: seq<Option<string>>, rows: seq<seq<Value>>, k: nat, dataset: Dataset)
    requires k <= |headers| && dataset.Valid()
    ensures StoreColumns(headers, rows, k, dataset).Success? ==> StoreColumns(headers, rows, k, dataset).value.Valid()
    decreases |headers| - k
  {
    if k < |headers| {
      var column := Column(rows, k);
      if column.Success? {
        var next := dataset.Put(headers[k], column.value);
        assert StoreColumns(headers, rows, k, dataset) == StoreColumns(headers, rows, k + 1, next);
        StoreColumnsValid(headers, rows, k + 1, next);
      }
    }
  }

  lemma {:induction false} StoreColumnsKeeps(headers: seq<Option<string>>, rows: seq<seq<Value>>, k: nat, dataset: Dataset)
    requires k <= |headers|
    ensures StoreColumns(headers, rows, k, dataset).Success? ==> forall h :: LastAt(headers, h) < k ==>
      StoreColumns(headers, rows, k, dataset).value.Get(h) == dataset.Get(h)
    decreases |headers| - k
  {
    if k < |headers| && Column(rows, k).Success? {
      var next := dataset.Put(headers[k], Column(rows, k).value);
      StoreColumnsKeeps(headers, rows, k + 1, next);
      var r := StoreColumns(headers, rows, k + 1, next);
      if r.Success? {
        forall h | LastAt(headers, h) < k
          ensures r.value.Get(h) == dataset.Get(h)
        {
          assert h != headers[k];
        }
      }
    }
  }

  lemma {:induction false} StoreColumnsStored(headers: seq<Option<string>>, rows: seq<seq<Value>>, k: nat, dataset: Dataset)
    requires k <= |headers|
    ensures StoreColumns(headers, rows, k, dataset).Success? && k < |headers| ==>
      && Fits(rows, |headers|)
      && forall h :: LastAt(headers, h) >= k ==>
        var column := StoreColumns(headers, rows, k, dataset).value.Get(h);
        && column.Some? && |column.value| == |rows|
        && forall j :: 0 <= j < |rows| ==> column.value[j] == rows[j][LastAt(headers, h)]
    decreases |headers| - k
  {
    if k < |headers| && Column(rows, k).Success? {
      var next := dataset.Put(headers[k], Column(rows, k).value);
      StoreColumnsOk(headers, rows, k, dataset);
      StoreColumnsStored(headers, rows, k + 1, next);
      StoreColumnsKeeps(headers, rows, k + 1, next);
    }
  }

  /**
   * Storing a block fails with IndexError exactly when some row has fewer
   * fields than there are headers. Otherwise each header's column holds, in
   * file order, one field of every row (the field at the header's position,
   * the last one when a header repeats, as later assignments overwrite), so
   * every stored column is as long as the block has rows; other keys keep
   * their columns.
   */
  lemma StoreEffect(headers: seq<Option<string>>, rows: seq<seq<Value>>, dataset: Dataset)
    ensures Store(headers, rows, dataset).Success? <==> Fits(rows, |headers|)
    ensures Store(headers, rows, dataset).Failure? ==> Store(headers, rows, dataset).error == IndexError
    ensures dataset.Valid() && Store(headers, rows, dataset).Success? ==> Store(headers, rows, dataset).value.Valid()
    ensures Store(headers, rows, dataset).Success? ==> forall h :: h !in headers ==>
      Store(headers, rows, dataset).value.Get(h) == dataset.Get(h)
    ensures Store(headers, rows, dataset).Success? ==> forall h :: h in headers ==>
      var column := Store(headers, rows, dataset).value.Get(h);
      && column.Some? && |column.value| == |rows|
      && forall j :: 0 <= j < |rows| ==> LastAt(headers, h) < |rows[j]| && column.value[j] == rows[j][LastAt(headers, h)]
  {
    StoreColumnsEffect(headers, rows, 0, dataset);
  }

  // ----- One line -----

  /**
   * A header row `headers = [dataname] + tokens[2:]`, where a third token
   * `FROM` or `at` becomes `<dataname>_FROM` or `<dataname>_at` and a fourth
   * token `TO` becomes `<dataname>_TO`; building those names without a
   * dataname raises TypeError.
   */
  function HeaderRow(dataname: Option<string>, tokens: seq<string>): (r: Result<seq<Option<string>>, Raised>)
    requires |tokens| >= 2
    ensures r.Success? <==> dataname.Some? || !(NeedsName2(tokens) || NeedsName3(tokens))
    ensures r.Failure? ==> r.error == TypeError
    ensures r.Success? ==> |r.value| == |tokens| - 1 && r.value[0] == dataname
    ensures r.Success? ==> forall i :: 2 <= i < |tokens| ==>
      r.value[i - 1] == Some(
        if i == 2 && NeedsName2(tokens) then dataname.value + "_" + tokens[2]
        else if i == 3 && NeedsName3(tokens) then dataname.value + "_TO"
        else tokens[i])
  {
    if dataname.None? && (NeedsName2(tokens) || NeedsName3(tokens)) then Failure(TypeError)
    else
      var t2 := if NeedsName2(tokens) then tokens[2 := dataname.value + "_" + tokens[2]] else tokens;
      var t3 := if NeedsName3(tokens) then t2[3 := dataname.value + "_TO"] else t2;
      Success([dataname] + Names(t3[2..]))
  }

  predicate NeedsName2(tokens: seq<string>) {
    |tokens| >= 3 && (tokens[2] == "FROM" || tokens[2] == "at")
  }

  predicate NeedsName3(tokens: seq<string>) {
    |tokens| >= 4 && tokens[3] == "TO"
  }

  function Names(tokens: seq<string>): (r: seq<Option<string>>)
    ensures |r| == |tokens| && forall i :: 0 <= i < |tokens| ==> r[i] == Some(tokens[i])
  {
    seq(|tokens|, i requires 0 <= i < |tokens| => Some(tokens[i]))
  }

  /** What one (stripped) line of the section does to the block and the dataset. */
  function MeasureLine(line: string, b: Block, dataset: Dataset, conv: Conversions): Result<(Block, Dataset), Raised> {
    if StartsWith(line, MeasurementTag) then OpenBlock(line[|MeasurementTag|..], b, dataset)
    else TabRow(Split(line, "\t"), b, dataset, conv)
  }

  function OpenBlock(name: string, b: Block, dataset: Dataset): Result<(Block, Dataset), Raised> {
    if Truthy(b.dataname) then
      var stored :- if b.rows != [] then Store(b.headers, b.rows, dataset) else Success(dataset);
      Success((Block(Some(name), [], []), stored))
    else Success((b.(dataname := Some(name)), dataset))
  }

  function TabRow(tokens: seq<string>, b: Block, dataset: Dataset, conv: Conversions): Result<(Block, Dataset), Raised> {
    if |tokens| < 2 then Success((b, dataset))
    else if conv.toInt(tokens[0]).Some? then
      Success((b.(rows := b.rows + [ConvertAll(tokens[1..], conv)]), dataset))
    else
      var headers :- HeaderRow(b.dataname, tokens);
      Success((b.(headers := headers, rows := []), dataset))
  }

  /**
   * The section from line `i` to the end of the input, then the final store
   * of the last block when it has rows.
   */
  function MeasureFrom(lines: seq<string>, i: nat, b: Block, dataset: Dataset, conv: Conversions)
    : Result<Dataset, Raised>
    decreases |lines| - i
  {
    if Readline(lines, i) == "" then
      if b.rows != [] then Store(b.headers, b.rows, dataset) else Success(dataset)
    else
      var (next, stored) :- MeasureLine(StripNewlines(lines[i]), b, dataset, conv);
      MeasureFrom(lines, i + 1, next, stored, conv)
  }

  /** The whole section, starting at line `i` with no block open. */
  function MeasureSection(lines: seq<string>, i: nat, dataset: Dataset, conv: Conversions): Result<Dataset, Raised> {
    MeasureFrom(lines, i, NoBlock, dataset, conv)
  }

  // ----- What a line does -----

  /**
   * A `Measurement: ` line opens a block named by the text after the tag. If
   * the open block has a (truthy) name, its rows are stored first when there
   * are any, and its headers and rows are dropped; otherwise they carry over
   * into the new block.
   */
  lemma MeasurementLine(line: string, b: Block, dataset: Dataset, conv: Conversions)
    requires StartsWith(line, MeasurementTag)
    ensures var r := MeasureLine(line, b, dataset, conv);
      && (r.Success? <==> !Truthy(b.dataname) || b.rows == [] || Store(b.headers, b.rows, dataset).Success?)
      && (r.Success? ==> r.value.0.dataname == Some(line[13..]))
      && (r.Success? && Truthy(b.dataname) ==> r.value.0.headers == [] && r.value.0.rows == [])
      && (r.Success? && !Truthy(b.dataname) ==> r.value.0.headers == b.headers && r.value.0.rows == b.rows)
      && (r.Success? && Truthy(b.dataname) && b.rows != [] ==> r.value.1 == Store(b.headers, b.rows, dataset).value)
      && (r.Success? && (!Truthy(b.dataname) || b.rows == []) ==> r.value.1 == dataset)
  {
  }

  /**
   * Any other line is split at tabs. With fewer than two fields it changes
   * nothing; when its first field is an integer it is a data row, which adds
   * its other fields, converted, as one more row; otherwise it is a header
   * row, which sets the headers and drops the rows gathered so far. Neither
   * kind of row touches the dataset.
   */
  lemma TabLine(line: string, b: Block, dataset: Dataset, conv: Conversions)
    requires !StartsWith(line, MeasurementTag)
    ensures var tokens := Split(line, "\t"); var r := MeasureLine(line, b, dataset, conv);
      && (|tokens| < 2 ==> r == Success((b, dataset)))
      && (|tokens| >= 2 && conv.toInt(tokens[0]).Some? ==>
            r == Success((b.(rows := b.rows + [ConvertAll(tokens[1..], conv)]), dataset)))
      && (|tokens| >= 2 && conv.toInt(tokens[0]).None? ==>
            && (r.Success? <==> HeaderRow(b.dataname, tokens).Success?)
            && (r.Success? ==> r.value == (Block(b.dataname, HeaderRow(b.dataname, tokens).value, []), dataset)))
  {
  }

  // ----- A block read as a whole -----

  /** A data row: not a block line, at least two tab-separated fields, the first an integer. */
  predicate IsDataLine(line: string, conv: Conversions) {
    && !StartsWith(line, MeasurementTag)
    && |Split(line, "\t")| >= 2
    && conv.toInt(Split(line, "\t")[0]).Some?
  }

  /** What a data row adds: its fields after the first, converted. */
  function DataOf(line: string, conv: Conversions): seq<Value> {
    var tokens := Split(line, "\t");
    if |tokens| >= 1 then ConvertAll(tokens[1..], conv) else []
  }

  /** `row(i)`, ..., `row(e - 1)`. */
  function Gather(row: nat -> seq<Value>, i: nat, e: nat): (r: seq<seq<Value>>)
    ensures |r| == if i <= e then e - i else 0
    decreases e - i
  {
    if i >= e then [] else [row(i)] + Gather(row, i + 1, e)
  }

  /** What line `j` adds when it is a data row. */
  function RowOfLine(lines: seq<string>, conv: Conversions): nat -> seq<Value> {
    (j: nat) => DataOf(StripNewlines(Readline(lines, j)), conv)
  }

  /** The rows that lines `i` to `e` (excluded) contribute, in file order. */
  function RowsOf(lines: seq<string>, i: nat, e: nat, conv: Conversions): seq<seq<Value>> {
    Gather(RowOfLine(lines, conv), i, e)
  }

  /** Lines `i` to `e` (excluded) are present and are data rows. */
  predicate DataLines(lines: seq<string>, i: nat, e: nat, conv: Conversions) {
    && i <= e <= |lines|
    && forall j :: i <= j < e ==> lines[j] != "" && IsDataLine(StripNewlines(lines[j]), conv)
  }

  /** A data row adds its converted fields as one more row and changes nothing else. */
  lemma DataLineStep(line: string, b: Block, dataset: Dataset, conv: Conversions)
    requires IsDataLine(line, conv)
    ensures MeasureLine(line, b, dataset, conv) == Success((b.(rows := b.rows + [DataOf(line, conv)]), dataset))
  {
  }

  /** Reading a data row continues the section with the row added to the block. */
  lemma ReadDataLine(lines: seq<string>, i: nat, b: Block, dataset: Dataset, conv: Conversions)
    requires i < |lines| && lines[i] != "" && IsDataLine(StripNewlines(lines[i]), conv)
    ensures MeasureFrom(lines, i, b, dataset, conv)
         == MeasureFrom(lines, i + 1, b.(rows := b.rows + [DataOf(StripNewlines(lines[i]), conv)]), dataset, conv)
  {
    DataLineStep(StripNewlines(lines[i]), b, dataset, conv);
  }

  /** Step `j` turns rows `rs` into `rs + [row(j)]`. */
  predicate AddsRow(f: (nat, seq<seq<Value>>) -> Result<Dataset, Raised>, row: nat -> seq<Value>, j: nat, rs: seq<seq<Value>>) {
    f(j, rs) == f(j + 1, rs + [row(j)])
  }

  /** Steps `i` to `e` that each add one row, taken together, add all of them in order. */
  lemma {:induction false} AppendChain(f: (nat, seq<seq<Value>>) -> Result<Dataset, Raised>, row: nat -> seq<Value>,
                                         i: nat, e: nat, acc: seq<seq<Value>>)
    requires i <= e
    requires forall j: nat, rs :: i <= j < e ==> AddsRow(f, row, j, rs)
    ensures f(i, acc) == f(e, acc + Gather(row, i, e))
    decreases e - i
  {
    if i == e {
      assert acc + Gather(row, i, e) == acc;
    } else {
      assert AddsRow(f, row, i, acc);
      AppendChain(f, row, i + 1, e, acc + [row(i)]);
      ConcatAssoc(acc, [row(i)], Gather(row, i + 1, e));
    }
  }

  /** The rest of the section from line `j`, with the open block's rows replaced by `rs`. */
  function RestWith(lines: seq<string>, b: Block, dataset: Dataset, conv: Conversions): (nat, seq<seq<Value>>) -> Result<Dataset, Raised> {
    (j: nat, rs: seq<seq<Value>>) => MeasureFrom(lines, j, b.(rows := rs), dataset, conv)
  }

  /** A data row adds its row to the block, whatever rows the block holds. */
  lemma DataLineAddsRow(lines: seq<string>, j: nat, b: Block, dataset: Dataset, conv: Conversions, rs: seq<seq<Value>>)
    requires j < |lines| && lines[j] != "" && IsDataLine(StripNewlines(lines[j]), conv)
    ensures AddsRow(RestWith(lines, b, dataset, conv), RowOfLine(lines, conv), j, rs)
  {
    var row := DataOf(StripNewlines(lines[j]), conv);
    assert RowOfLine(lines, conv)(j) == row;
    ReadDataLine(lines, j, b.(rows := rs), dataset, conv);
    assert b.(rows := rs).(rows := rs + [row]) == b.(rows := rs + [row]);
  }

  /** Every data row among lines `i` to `e` adds its row to the block, whatever rows it holds. */
  lemma DataLinesAddRows(lines: seq<string>, i: nat, e: nat, b: Block, dataset: Dataset, conv: Conversions)
    requires DataLines(lines, i, e, conv)
    ensures forall j: nat, rs :: i <= j < e ==> AddsRow(RestWith(lines, b, dataset, conv), RowOfLine(lines, conv), j, rs)
  {
    forall j: nat, rs | i <= j < e
      ensures AddsRow(RestWith(lines, b, dataset, conv), RowOfLine(lines, conv), j, rs)
    {
      DataLineAddsRow(lines, j, b, dataset, conv, rs);
    }
  }

  /** A run of data rows only adds its rows, in order, to the open block. */
  lemma DataRowsAppend(lines: seq<string>, i: nat, e: nat, b: Block, dataset: Dataset, conv: Conversions)
    requires DataLines(lines, i, e, conv)
    ensures MeasureFrom(lines, i, b, dataset, conv)
         == MeasureFrom(lines, e, b.(rows := b.rows + RowsOf(lines, i, e, conv)), dataset, conv)
  {
    DataLinesAddRows(lines, i, e, b, dataset, conv);
    AppendChain(RestWith(lines, b, dataset, conv), RowOfLine(lines, conv), i, e, b.rows);
    assert b.(rows := b.rows) == b;
  }

  // ----- Blocks -----

  /** A header row: not a block line, at least two tab-separated fields, the first not an integer. */
  predicate IsHeaderLine(line: string, conv: Conversions) {
    && !StartsWith(line, MeasurementTag)
    && |Split(line, "\t")| >= 2
    && conv.toInt(Split(line, "\t")[0]).None?
  }

  /** Reading line `i` moves the section on to line `i + 1` with the state the line leaves. */
  lemma ReadLine(lines: seq<string>, i: nat, b: Block, dataset: Dataset, conv: Conversions, b1: Block, ds1: Dataset)
    requires i < |lines| && lines[i] != ""
    requires MeasureLine(StripNewlines(lines[i]), b, dataset, conv) == Success((b1, ds1))
    ensures MeasureFrom(lines, i, b, dataset, conv) == MeasureFrom(lines, i + 1, b1, ds1, conv)
  {
  }

  /** A header row sets the headers, drops the rows and keeps the name and the dataset. */
  lemma HeaderLineStep(line: string, b: Block, dataset: Dataset, conv: Conversions, headers: seq<Option<string>>)
    requires IsHeaderLine(line, conv)
    requires HeaderRow(b.dataname, Split(line, "\t")) == Success(headers)
    ensures MeasureLine(line, b, dataset, conv) == Success((Block(b.dataname, headers, []), dataset))
  {
  }

  /** A `Measurement: ` line names the block it opens after its tag. */
  lemma OpensBlock(line: string, b: Block, dataset: Dataset, conv: Conversions, b1: Block, ds1: Dataset)
    requires StartsWith(line, MeasurementTag)
    requires MeasureLine(line, b, dataset, conv) == Success((b1, ds1))
    ensures b1.dataname == Some(line[|MeasurementTag|..])
  {
  }

  /** Line `i` is a header row that gives the headers `headers` to a block named `name`. */
  predicate HeaderAt(lines: seq<string>, i: nat, name: Option<string>, headers: seq<Option<string>>, conv: Conversions) {
    && i < |lines| && lines[i] != "" && IsHeaderLine(StripNewlines(lines[i]), conv)
    && HeaderRow(name, Split(StripNewlines(lines[i]), "\t")) == Success(headers)
  }

  /** Reading a header row continues the section with the new headers and no rows. */
  lemma ReadHeaderLine(lines: seq<string>, i: nat, b: Block, dataset: Dataset, conv: Conversions, headers: seq<Option<string>>)
    requires HeaderAt(lines, i, b.dataname, headers, conv)
    ensures MeasureFrom(lines, i, b, dataset, conv) == MeasureFrom(lines, i + 1, Block(b.dataname, headers, []), dataset, conv)
  {
    HeaderLineStep(StripNewlines(lines[i]), b, dataset, conv, headers);
  }

  /** Data rows read into a block that has none yet become its rows. */
  lemma RowsIntoEmptyBlock(lines: seq<string>, i: nat, e: nat, name: Option<string>, headers: seq<Option<string>>,
                           dataset: Dataset, conv: Conversions)
    requires DataLines(lines, i, e, conv)
    ensures MeasureFrom(lines, i, Block(name, headers, []), dataset, conv)
         == MeasureFrom(lines, e, Block(name, headers, RowsOf(lines, i, e, conv)), dataset, conv)
  {
    var rows := RowsOf(lines, i, e, conv);
    assert [] + rows == rows;
    DataRowsAppend(lines, i, e, Block(name, headers, []), dataset, conv);
  }

  /** A header row and the data rows after it, up to line `e`, give the block its headers and rows. */
  lemma BlockBody(lines: seq<string>, i: nat, e: nat, b: Block, dataset: Dataset, conv: Conversions,
                  headers: seq<Option<string>>)
    requires HeaderAt(lines, i, b.dataname, headers, conv) && DataLines(lines, i + 1, e, conv)
    ensures MeasureFrom(lines, i, b, dataset, conv)
         == MeasureFrom(lines, e, Block(b.dataname, headers, RowsOf(lines, i + 1, e, conv)), dataset, conv)
  {
    ReadHeaderLine(lines, i, b, dataset, conv, headers);
    RowsIntoEmptyBlock(lines, i + 1, e, b.dataname, headers, dataset, conv);
  }

  /**
   * A block read as a whole: its `Measurement: ` line, one header row and the
   * data rows up to line `e` leave the block named by the first line, with
   * the header row's headers and the data rows in file order, over the
   * dataset that the `Measurement: ` line left.
   */
  lemma MeasureBlock(lines: seq<string>, i: nat, e: nat, b: Block, dataset: Dataset, conv: Conversions,
                     b1: Block, ds1: Dataset, headers: seq<Option<string>>)
    requires i + 2 <= e && DataLines(lines, i + 2, e, conv)
    requires lines[i] != "" && StartsWith(StripNewlines(lines[i]), MeasurementTag)
    requires MeasureLine(StripNewlines(lines[i]), b, dataset, conv) == Success((b1, ds1))
    requires HeaderAt(lines, i + 1, b1.dataname, headers, conv)
    ensures b1.dataname == Some(StripNewlines(lines[i])[|MeasurementTag|..])
    ensures MeasureFrom(lines, i, b, dataset, conv)
         == MeasureFrom(lines, e, Block(b1.dataname, headers, RowsOf(lines, i + 2, e, conv)), ds1, conv)
  {
    OpensBlock(StripNewlines(lines[i]), b, dataset, conv, b1, ds1);
    ReadLine(lines, i, b, dataset, conv, b1, ds1);
    BlockBody(lines, i + 1, e, b1, ds1, conv, headers);
  }

  /**
   * The last block of the log: when the input ends after its data rows, the
   * section's result is the store of those rows under the block's headers
   * (which fails with IndexError on a row shorter than the headers), or the
   * dataset unchanged when the block has no rows.
   */
  lemma LastBlock(lines: seq<string>, i: nat, e: nat, b: Block, dataset: Dataset, conv: Conversions,
                  b1: Block, ds1: Dataset, headers: seq<Option<string>>)
    requires i + 2 <= e && DataLines(lines, i + 2, e, conv) && Readline(lines, e) == ""
    requires lines[i] != "" && StartsWith(StripNewlines(lines[i]), MeasurementTag)
    requires MeasureLine(StripNewlines(lines[i]), b, dataset, conv) == Success((b1, ds1))
    requires HeaderAt(lines, i + 1, b1.dataname, headers, conv)
    ensures MeasureFrom(lines, i, b, dataset, conv)
         == if i + 2 == e then Success(ds1) else Store(headers, RowsOf(lines, i + 2, e, conv), ds1)
  {
    MeasureBlock(lines, i, e, b, dataset, conv, b1, ds1, headers);
  }

  /**
   * The next `Measurement: ` line after a block with a name and rows stores
   * the block and opens an empty one; a failed store ends the section with
   * its error.
   */
  lemma NextBlock(lines: seq<string>, i: nat, b: Block, dataset: Dataset, conv: Conversions)
    requires i < |lines| && lines[i] != "" && StartsWith(StripNewlines(lines[i]), MeasurementTag)
    requires Truthy(b.dataname) && b.rows != []
    ensures Store(b.headers, b.rows, dataset).Failure? ==>
      MeasureFrom(lines, i, b, dataset, conv) == Failure(Store(b.headers, b.rows, dataset).error)
    ensures Store(b.headers, b.rows, dataset).Success? ==>
      MeasureFrom(lines, i, b, dataset, conv)
        == MeasureFrom(lines, i + 1, Block(Some(StripNewlines(lines[i])[|MeasurementTag|..]), [], []),
                       Store(b.headers, b.rows, dataset).value, conv)
  {
    MeasurementLine(StripNewlines(lines[i]), b, dataset, conv);
  }

  // ----- The reading loops -----

  /** A sequence holding field `k` of every row, in order, is that column. */
  lemma ColumnOf(rows: seq<seq<Value>>, k: nat, column: seq<Value>)
    requires |column| == |rows|
    requires forall m :: 0 <= m < |rows| ==> k < |rows[m]| && column[m] == rows[m][k]
    ensures Column(rows, k) == Success(column)
  {
    var c := Column(rows, k);
    assert c.Success?;
    assert c.value == column;
  }

  /** `[measure[k] for measure in measurements]`, one row at a time. */
  method GatherColumn(rows: seq<seq<Value>>, k: nat) returns (r: Result<seq<Value>, Raised>)
    ensures r == Column(rows, k)
  {
    var column := [];
    var j := 0;
    while j < |rows|
      invariant j <= |rows| && |column| == j
      invariant forall m :: 0 <= m < j ==> k < |rows[m]| && column[m] == rows[m][k]
    {
      if k >= |rows[j]| {
        return Failure(IndexError);
      }
      column := column + [rows[j][k]];
      j := j + 1;
    }
    ColumnOf(rows, k, column);
    r := Success(column);
  }

  /** The store loop: every header in turn gets its column. */
  method StoreBlock(headers: seq<Option<string>>, rows: seq<seq<Value>>, dataset: Dataset) returns (r: Result<Dataset, Raised>)
    ensures r == Store(headers, rows, dataset)
  {
    var stored := dataset;
    var k := 0;
    while k < |headers|
      invariant k <= |headers|
      invariant StoreColumns(headers, rows, k, stored) == Store(headers, rows, dataset)
      decreases |headers| - k
    {
      var column := GatherColumn(rows, k);
      if column.Failure? {
        return Failure(column.error);
      }
      stored := stored.Put(headers[k], column.value);
      k := k + 1;
    }
    r := Success(stored);
  }

  /** Reading line `i` either moves on to line `i + 1` with the state the line leaves, or ends with its error. */
  lemma Advance(lines: seq<string>, i: nat, b: Block, dataset: Dataset, conv: Conversions,
                step: Result<(Block, Dataset), Raised>)
    requires Readline(lines, i) != ""
    requires step == MeasureLine(StripNewlines(lines[i]), b, dataset, conv)
    ensures step.Failure? ==> MeasureFrom(lines, i, b, dataset, conv) == Failure(step.error)
    ensures step.Success? ==> MeasureFrom(lines, i, b, dataset, conv) == MeasureFrom(lines, i + 1, step.value.0, step.value.1, conv)
  {
  }

  /** A `Measurement: ` line: store the open block if it has a name and rows, then open the next one. */
  method OpenNext(name: string, b: Block, dataset: Dataset) returns (r: Result<(Block, Dataset), Raised>)
    ensures r == OpenBlock(name, b, dataset)
  {
    if Truthy(b.dataname) {
      var stored := dataset;
      if b.rows != [] {
        var s := StoreBlock(b.headers, b.rows, dataset);
        if s.Failure? {
          return Failure(s.error);
        }
        stored := s.value;
      }
      r := Success((Block(Some(name), [], []), stored));
    } else {
      r := Success((b.(dataname := Some(name)), dataset));
    }
  }

  /** The body of the measurement loop for one stripped line. */
  method ProcessLine(line: string, b: Block, dataset: Dataset, conv: Conversions) returns (r: Result<(Block, Dataset), Raised>)
    ensures r == MeasureLine(line, b, dataset, conv)
  {
    if StartsWith(line, MeasurementTag) {
      r := OpenNext(line[|MeasurementTag|..], b, dataset);
    } else {
      var tokens := Split(line, "\t");
      if |tokens| < 2 {
        r := Success((b, dataset));
      } else if conv.toInt(tokens[0]).Some? {
        r := Success((b.(rows := b.rows + [ConvertAll(tokens[1..], conv)]), dataset));
      } else {
        var headers := HeaderRow(b.dataname, tokens);
        if headers.Failure? {
          return Failure(headers.error);
        }
        r := Success((b.(headers := headers.value, rows := []), dataset));
      }
    }
  }

  /** The measurement loop: one line per turn until the input ends, then the last store. */
  method ReadMeasurements(lines: seq<string>, start: nat, dataset: Dataset, conv: Conversions) returns (r: Result<Dataset, Raised>)
    ensures r == MeasureSection(lines, start, dataset, conv)
  {
    var b := NoBlock;
    var stored := dataset;
    var i := start;
    while Readline(lines, i) != ""
      invariant MeasureFrom(lines, i, b, stored, conv) == MeasureSection(lines, start, dataset, conv)
      decreases |lines| - i
    {
      var step := ProcessLine(StripNewlines(lines[i]), b, stored, conv);
      Advance(lines, i, b, stored, conv, step);
      if step.Failure? {
        return Failure(step.error);
      }
      b, stored := step.value.0, step.value.1;
      i := i + 1;
    }
    if b.rows != [] {
      r := StoreBlock(b.headers, b.rows, stored);
    } else {
      r := Success(stored);
    }
  }
}
