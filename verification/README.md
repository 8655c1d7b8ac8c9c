# LTspice log and export readers, in Dafny

This project models the text-to-table core of `spicelib/log/ltsteps.py`:

- **`LTSpiceLogReader.__init__`** reads an LTspice simulation log in two loops.
  - The *preamble* loop handles four kinds of line:
    - `N-Period` blocks become `FourierData` analyses, filed per signal;
    - `.step` lines count the runs and append each stepped parameter's value to `stepset`;
    - while no run has been counted, lines the stepless-measurement pattern recognises become one-element `dataset` columns;
    - a `Measurement:` line either returns from the constructor (`read_measures` false) or hands over to the next loop.
  - The *measurement section* loop reads blocks. Each block is a `Measurement: <name>` line, a tab-separated header row and integer-led data rows. A block is stored column by column when the next block starts or the input ends.
- **`reformat_LTSpice_export`** rewrites an "Export data as text" file:
  - it drops every `Step Information:` divider;
  - it writes an extended header once;
  - it prefixes every data line with its run number and parameter values.
- **`LTSpiceExport.__init__`** reads the same export format into one column per header, plus one column per stepped parameter and `runno`.
- **`HarmonicData.from_line`** and **`FourierData`** are the analysis records.

Each constructor only fills attributes; nothing changes them afterwards. The readers are therefore modelled as value-returning methods whose loops are proved equal to recursive specification functions:

- `LogReader.ReadLogFile` equals `ReadLog`;
- `Reformat.ReformatExport` equals `Reformat`, and gives what the output file holds (`WrittenFile`), also after an exception;
- `ExportReader.ReadExport` equals `Export`.

An exception raised while reading is a `Failure` carrying the Python exception (`Values.Raised`). The lemmas about the specification functions carry the properties.

A file is the sequence of strings `readline` returns, each with its line terminator. `""` is end of file (`Text.Readline`).

Python dictionaries are `Tables.Table`: a map plus the order in which its keys were first inserted.

Several conversions are given functions, gathered in `Values.Conversions` (values) and `LogReader.Matcher` (the stepless pattern):

- `try_convert_value`, which lives in a file that is not part of this model;
- `int()` and `float()`;
- the `\d+.\d+` distortion-figure search;
- the stepless-measurement regular expression.

The `Step Information` regular expression is modelled exactly (`StepInfo.MatchStepInfo`), with ASCII `\w` and `\d`.

Modules:

| file | module | models |
|---|---|---|
| wrappers.dfy | Wrappers | `Option`, `Result` and result concatenation |
| tables.dfy | Tables | insertion-ordered dictionaries |
| values.dfy | Values | converted values, Python exceptions, given conversions |
| text.dfy | Text | `startswith`, `split(sep)`, `split()`, `join`, `strip('\r\n')`, `rstrip(c)`, `readline` |
| step_info.dfy | StepInfo | the `Step Information` divider and its regular expression |
| reformat.dfy | Reformat | `reformat_LTSpice_export` |
| export_reader.dfy | ExportReader | `LTSpiceExport.__init__` |
| harmonics.dfy | Harmonics | `HarmonicData`, `HarmonicData.from_line`, `FourierData` |
| fourier.dfy | FourierBlocks | the `N-Period` blocks of the preamble |
| measurements.dfy | Measurements | the measurement section of the log |
| log_reader.dfy | LogReader | the preamble loop and the whole `LTSpiceLogReader.__init__` |

## Model

| member | source | states |
|---|---|---|
| Text.StripNewlines | spicelib/log/ltsteps.py:349 | `strip('\r\n')` yields "" exactly for a line made only of terminators (a blank line) or for end of file; otherwise the result neither starts nor ends with a terminator, and a line without terminators at its ends is unchanged |
| Text.StrippedLines | spicelib/log/ltsteps.py:349 | one stripped row per line, in order |
| Text.ReadStripped | spicelib/log/ltsteps.py:349 | reading a stripped row is stripping the line read, also at end of file |
| Text.JoinSplit | spicelib/log/ltsteps.py:143 | joining the pieces of `split(sep)` with `sep` gives the string back |
| Text.SplitPiecesFree | spicelib/log/ltsteps.py:142 | no piece of `split(sep)` contains `sep` |
| Text.LastPiece | spicelib/log/ltsteps.py:336 | `split(sep)[-1]` is the text after the last occurrence of `sep`: a suffix free of `sep`, and either the whole string or preceded by `sep` |
| Text.SplitPair | spicelib/log/ltsteps.py:203 | `(a + c + b).split(c)` is `[a, b]` when neither side contains `c` |
| Text.WordsAreWords | spicelib/log/ltsteps.py:238 | every token of `split()` is non-empty and free of whitespace |
| Text.WordsJoin | spicelib/log/ltsteps.py:141 | `split()` of space-joined words gives the words back |
| Text.WordsJoinSpace | spicelib/log/ltsteps.py:141 | the same with a trailing space, as the divider's parameter group has |
| Text.WordsCons | spicelib/log/ltsteps.py:238 | a word followed by whitespace or nothing is the first token of `split()` |
| Text.RStrip | spicelib/log/ltsteps.py:243 | `rstrip(c)` removes exactly the trailing run of `c`, leaving a prefix that does not end with `c` |
| Tables.Table.Get | spicelib/log/ltsteps.py:376 | `d.get(k, None)` is Some exactly for a present key, holding its value |
| Tables.Table.Put | spicelib/log/ltsteps.py:405-406 | `d[k] = v` maps `k` to `v`, keeps an existing key in place and puts a new key last, and keeps the table well formed |
| Tables.AppendTo | spicelib/log/ltsteps.py:363-366 | append-or-create: the key's list gains the value at its end (a new list holds only it), no other key changes, and a new key goes last |
| Values.FloatOf | spicelib/log/ltsteps.py:339 | `float(s)` returns the given conversion's value, or raises ValueError exactly when that conversion fails |
| Values.KeyValue | spicelib/log/ltsteps.py:372 | `lhs, rhs = tok.split("=")` succeeds exactly when the token has one `=`, yielding both sides, and raises ValueError otherwise |
| StepInfo.MatchStepInfo | spicelib/log/ltsteps.py:134 | a divider match requires the `Step Information:` prefix |
| StepInfo.MatchRunTail | spicelib/log/ltsteps.py:134 | the run group is all digits and is followed by `/` |
| StepInfo.DividerMatches | spicelib/log/ltsteps.py:134 | any parameter text of the class `[\w=\d\. -]`, then spaces and `(Run: n/m)`, matches; the greedy group keeps one of the spaces, and the run group is `n` |
| StepInfo.RunTailMatches | spicelib/log/ltsteps.py:134 | the run tail `n/m)\n` matches with run number `n` |
| StepInfo.MarkerLineMatches | spicelib/log/ltsteps.py:134 | every divider LTspice writes matches, with the assignments (plus one space) and the run number as groups |
| StepInfo.AssignmentSplits | spicelib/log/ltsteps.py:142 | `name=value` is one whitespace token and splits at `=` into the name and the value |
| StepInfo.AssignmentWords | spicelib/log/ltsteps.py:141-142 | a divider's parameter group splits on whitespace into its assignments, and each assignment at `=` into its name and value |
| Reformat.NamesOf | spicelib/log/ltsteps.py:146-148 | one header key per token, in order: the text before its `=` |
| Reformat.ValuesOf | spicelib/log/ltsteps.py:140-142 | one value per token, in order, the text after its first `=`; IndexError exactly when some token has no `=` |
| Reformat.CollectNames | spicelib/log/ltsteps.py:146-148 | the header-key loop computes `NamesOf` |
| Reformat.CollectValues | spicelib/log/ltsteps.py:140-142 | the value loop computes `ValuesOf`, raising at the first token without `=` |
| Reformat.ParamsOfMarker | spicelib/log/ltsteps.py:139-149 | the names and values read back from a divider LTspice writes are the ones it was written with |
| Reformat.ProcessLine | spicelib/log/ltsteps.py:136-155 | the loop body computes `ReformatLine`: dropped divider, header at the first matching divider, otherwise a tagged line |
| Reformat.ReformatExport | spicelib/log/ltsteps.py:129-155 | the whole transform, loop and all, yields `Reformat(file)` (the sequence of strings written, or the exception raised) together with what the output file holds when it stops, `WrittenFile(file)` |
| Reformat.WrittenAdvance | spicelib/log/ltsteps.py:135-155 | each line adds its own output to the file before the next is read; a line that raises adds nothing and ends the loop |
| Reformat.WrittenComplete | spicelib/log/ltsteps.py:135-155 | when no line raises, the output file holds exactly the transform's result |
| Reformat.WrittenBeforeFailure | spicelib/log/ltsteps.py:135-155 | when a line raises, the output file holds the output of the lines before it, and reading one line more raises the same exception |
| Reformat.ReformatWritten | spicelib/log/ltsteps.py:129-155 | for a whole file: the output file holds the result on success; on an exception, the result of the file up to the line that raised, where the transform raises the same exception |
| Reformat.UnmatchedMarkerIgnored | spicelib/log/ltsteps.py:136-138 | a divider line that does not match is dropped and changes neither run number nor values |
| Reformat.PlainLinesTagged | spicelib/log/ltsteps.py:154-155 | lines that are not dividers are copied in order, each behind the current run number and values |
| Reformat.MarkerLineAnnounces | spicelib/log/ltsteps.py:134-143 | every divider LTspice writes announces its own names, values and run number |
| Reformat.MarkerSwitchesRun | spicelib/log/ltsteps.py:136-153 | a matching divider switches to the run and values it announces and writes the extended header only while it is pending |
| Reformat.ReformatRuns | spicelib/log/ltsteps.py:135-155 | after the header, each run's data lines come out behind that run's number and values |
| Reformat.FirstRun | spicelib/log/ltsteps.py:135-155 | the first run: the header if pending, then its lines tagged, in front of the later runs' output |
| Reformat.ReformatSteppedExport | spicelib/log/ltsteps.py:129-155 | a stepped export becomes `Run\t<names>\t<header>` followed by every data line tagged with its run, with no divider copied |
| Reformat.ReformatBody | spicelib/log/ltsteps.py:129-135 | the first line is the header and the loop starts at the second |
| Reformat.ReformatUnstepped | spicelib/log/ltsteps.py:131-155 | without dividers every line is tagged with run "0" and empty values, and no extended header is written |
| Reformat.LineCount | spicelib/log/ltsteps.py:135-155 | one line writes itself unless it is a divider, plus the header at the first matching divider, after which the header is no longer pending |
| Reformat.ReformatCount | spicelib/log/ltsteps.py:129-155 | the output has one line per non-divider line, plus one header exactly when some divider matches |
| ExportReader.RecordParams | spicelib/log/ltsteps.py:202-204 | storing a divider's parameters keeps every stored key and the record well formed; a malformed parameter raises ValueError |
| ExportReader.InitColumns | spicelib/log/ltsteps.py:208-212 | every listed key gets an empty column, and other columns are kept |
| ExportReader.AppendRecord | spicelib/log/ltsteps.py:217-218 | appending the record raises KeyError exactly when a key has no column, and otherwise keeps the same keys in the same order |
| ExportReader.AppendFields | spicelib/log/ltsteps.py:220-221 | appending the fields keeps the keys and their order; only IndexError or KeyError can be raised |
| ExportReader.ExportLine | spicelib/log/ltsteps.py:196-221 | one pass of the loop keeps the record and the columns well formed |
| ExportReader.ExportFrom | spicelib/log/ltsteps.py:196-221 | the loop keeps the record and the columns well formed |
| ExportReader.StoreParams | spicelib/log/ltsteps.py:202-204 | the parameter loop computes `RecordParams` |
| ExportReader.CreateColumns | spicelib/log/ltsteps.py:208-212 | the column-creating loops compute `InitColumns` |
| ExportReader.AppendRecordValues | spicelib/log/ltsteps.py:217-218 | the `curr_dic` loop computes `AppendRecord` |
| ExportReader.AppendFieldValues | spicelib/log/ltsteps.py:220-221 | the field loop computes `AppendFields` |
| ExportReader.ProcessLine | spicelib/log/ltsteps.py:196-221 | the loop body computes `ExportLine` |
| ExportReader.ReadExport | spicelib/log/ltsteps.py:183-223 | the constructor yields `Export(file)`: the headers and columns, or the exception raised |
| ExportReader.ExportAdvance | spicelib/log/ltsteps.py:196-221 | one line of the file either raises, which ends the reading with that exception, or gives the state from which the rest is read |
| ExportReader.NoDividerNoColumns | spicelib/log/ltsteps.py:196-221 | without a matching divider the first data line raises KeyError, and unmatched dividers alone change nothing |
| ExportReader.ExportNeedsDivider | spicelib/log/ltsteps.py:186-221 | an export in which no divider matches succeeds exactly when it holds no data line, and then has no column; otherwise it raises KeyError |
| ExportReader.StoreAssignments | spicelib/log/ltsteps.py:202-204 | each name of a divider gets its converted value, and no other key changes |
| ExportReader.MatchedDivider | spicelib/log/ltsteps.py:197-212 | a matched divider stores the run number as text under `runno` and each converted value under its name; only the first one creates the empty columns, one per header and per stored key |
| ExportReader.DividerRecord | spicelib/log/ltsteps.py:200-204 | the record a divider leaves: the run number under `runno` and each assignment under its name, other keys kept |
| ExportReader.FirstDividerColumns | spicelib/log/ltsteps.py:206-212 | the first divider gives every header and every stored key an empty column and keeps the others |
| ExportReader.DividerLine | spicelib/log/ltsteps.py:197-212 | the divider LTspice writes before a run stores that run's number and parameter values |
| ExportReader.AppendRecordEffect | spicelib/log/ltsteps.py:217-218 | each key of the record gains its value at the end of its column; other columns are kept |
| ExportReader.AppendFieldsEffect | spicelib/log/ltsteps.py:220-221 | for a line with no more fields than headers, every column gains at its end, in field order, the converted fields whose header it is (`FieldsFor`), and nothing else; a header past the line's last field gains nothing |
| ExportReader.AppendFieldStep | spicelib/log/ltsteps.py:220-221 | one field goes to its header's column, and the later fields add the rest of what the column gains |
| ExportReader.FieldsForNone | spicelib/log/ltsteps.py:220-221 | a column that is the header of no field from field `i` on gains nothing |
| ExportReader.FieldsForOne | spicelib/log/ltsteps.py:220-221 | with distinct headers over the line's fields, the `j`-th header gains exactly the converted `j`-th field |
| ExportReader.AppendFieldsAppended | spicelib/log/ltsteps.py:220-221 | with distinct headers over the line's fields, each header from field `i` up to the line's last field gains its own converted field |
| ExportReader.AppendFieldsKeeps | spicelib/log/ltsteps.py:220-221 | a column that is the header of no field from field `i` to the line's last field is kept, including the columns of the headers past a short line's end |
| ExportReader.AppendFieldsOverflow | spicelib/log/ltsteps.py:220-221 | a line with more fields than headers raises IndexError |
| ExportReader.DataLine | spicelib/log/ltsteps.py:214-221 | after the first divider, a data line with no more fields than headers succeeds, keeps the record and the key order, and each column gains exactly `LineGain`: the record's value for it if any, then the converted fields whose header it is; a header past the line's last field gains no field, a repeated header gains each of its fields |
| ExportReader.DataLineStores | spicelib/log/ltsteps.py:214-221 | a data line's result is the state whose columns hold the record and then the fields appended |
| ExportReader.AppendLine | spicelib/log/ltsteps.py:216-221 | appending the record and then the fields of a line no wider than the headers succeeds, keeps the keys and the columns, and gives each column its `LineGain` |
| ExportReader.RecordGain | spicelib/log/ltsteps.py:217-218 | appending a record succeeds when each of its keys has a column, and each column gains the record's value for it, if it has one |
| ExportReader.FullLineGain | spicelib/log/ltsteps.py:214-221 | for a line as wide as the headers, with distinct headers none of which is a stored key, each header's and stored key's column gains one value and every other column none |
| ExportReader.ExtraFieldFails | spicelib/log/ltsteps.py:214-221 | a data line with more fields than headers raises IndexError |
| ExportReader.DataRows | spicelib/log/ltsteps.py:196-221 | a run of data lines, none wider than the headers, succeeds, keeps the record, the keys and the columns, and adds to each column what each line gives it (`RowsGain`), in file order |
| ExportReader.FullRowsGain | spicelib/log/ltsteps.py:196-221 | for lines as wide as the headers, with distinct headers none of which is a stored key, each header's and stored key's column gains one value per line and every other column none |
| Harmonics.Field | spicelib/log/ltsteps.py:239-244 | `parse(tokens[i])` raises IndexError past the last token and ValueError when the parse fails |
| Harmonics.RowOf | spicelib/log/ltsteps.py:237-245 | a harmonic row reads exactly when its first six tokens convert, as (number, frequency, component, normalized component, phase, normalized phase), with `°` stripped from the phases only |
| Harmonics.SameRow | spicelib/log/ltsteps.py:238-245 | rows that agree on their first four tokens and on their phases read alike |
| Harmonics.RStripDegree | spicelib/log/ltsteps.py:243-244 | a trailing degree sign does not change the phase |
| Harmonics.FromLineIgnoresDegreesAndExtras | spicelib/log/ltsteps.py:237-245 | a harmonic line reads the same with or without degree signs on its phases, and whatever follows its sixth token |
| Harmonics.FourierData.Fundamental | spicelib/log/ltsteps.py:258-260 | `fundamental` is the first harmonic's frequency, and IndexError without harmonics |
| Harmonics.FourierData.Item | spicelib/log/ltsteps.py:262-263 | `analysis[i]` is the i-th harmonic, with negative indices counting from the end, and IndexError outside |
| FourierBlocks.TableLine | spicelib/log/ltsteps.py:349-360 | a table line ends the table exactly when it is blank |
| FourierBlocks.ScanTable | spicelib/log/ltsteps.py:348-358 | the table loop stops at a blank row, at or after where it started |
| FourierBlocks.Periods | spicelib/log/ltsteps.py:329-333 | `all` periods is -1, and anything else is `float()` of the text |
| FourierBlocks.FourierBlock | spicelib/log/ltsteps.py:327-362 | a block's analysis is tagged `step_count - 1`, its signal is the last ` of `-piece of the next line, its periods the last `=`-piece of the `N-Period` line, its DC component the last `:`-piece of the line after, and its table is read from the sixth line on |
| FourierBlocks.ReadTableLine | spicelib/log/ltsteps.py:349-360 | the table loop body computes `TableLine` |
| FourierBlocks.ReadHarmonicTable | spicelib/log/ltsteps.py:346-358 | the `while True` table loop computes `ScanTable` |
| FourierBlocks.ReadFourierBlock | spicelib/log/ltsteps.py:327-362 | reading the block computes `FourierBlock` |
| FourierBlocks.FiguresDisjoint | spicelib/log/ltsteps.py:350-353 | no row is both a THD and a PHD row |
| FourierBlocks.TableEnd | spicelib/log/ltsteps.py:348-358 | a table ends at its first blank row |
| FourierBlocks.LineEffect | spicelib/log/ltsteps.py:349-360 | a THD or PHD row sets its figure and adds no harmonic; any other non-blank row adds its harmonic at the end |
| FourierBlocks.HarmonicsStep | spicelib/log/ltsteps.py:359-360 | a continuing row adds its harmonic, if it is one, in front of the later rows' |
| FourierBlocks.TableHarmonics | spicelib/log/ltsteps.py:347-360 | the harmonics are the non-figure rows before the blank one, parsed, in file order |
| FourierBlocks.TableThd | spicelib/log/ltsteps.py:346-352 | the THD comes from the last `Total Harmonic` row, and stays as it was without one |
| FourierBlocks.TablePhd | spicelib/log/ltsteps.py:346-355 | the PHD comes from the last `Partial Harmonic` row, and stays as it was without one |
| FourierBlocks.BlockHeader | spicelib/log/ltsteps.py:329-336 | an analysis is tagged with the last step counted, its signal is the text after the last ` of ` (which holds no ` of `), and `all` periods read as -1 |
| FourierBlocks.BlockTable | spicelib/log/ltsteps.py:341-362 | the table runs from the sixth line after `N-Period` to the first blank one; its harmonics are its non-figure rows in order, and THD/PHD come from its last figure rows, None without one |
| FourierBlocks.TableOf | spicelib/log/ltsteps.py:346-360 | the same facts about a table read from any row |
| Measurements.ConvertAll | spicelib/log/ltsteps.py:432-433 | a data row's fields are converted one by one, in order |
| Measurements.Column | spicelib/log/ltsteps.py:422 | `[measure[k] for measure in measurements]` is field `k` of every row in order, and IndexError exactly when some row is too short |
| Measurements.LastAt | spicelib/log/ltsteps.py:421-422 | the last position of a header, whose assignment is the one that stays |
| Measurements.StoreColumnsEffect | spicelib/log/ltsteps.py:421-422 | from header `k` on, the store raises IndexError exactly when a row is shorter than the headers; otherwise each later header holds its last position's field of every row, and other keys are kept |
| Measurements.StoreColumnsOk | spicelib/log/ltsteps.py:421-422 | the store from header `k` succeeds exactly when every row has a field per header, and otherwise raises IndexError |
| Measurements.StoreColumnsValid | spicelib/log/ltsteps.py:421-422 | storing keeps the dataset well formed |
| Measurements.StoreColumnsKeeps | spicelib/log/ltsteps.py:421-422 | keys whose last header position is before `k` are kept |
| Measurements.StoreColumnsStored | spicelib/log/ltsteps.py:421-422 | each header from `k` on holds its last position's field of every row, in row order |
| Measurements.StoreEffect | spicelib/log/ltsteps.py:421-422 | storing a block raises IndexError exactly when a row is shorter than the headers; otherwise every header's column has one value per row, in file order, from the header's last position, and no other key changes |
| Measurements.HeaderRow | spicelib/log/ltsteps.py:436-440 | a header row is `[dataname] + tokens[2:]`, with a third token `FROM`/`at` renamed `<dataname>_FROM`/`<dataname>_at` and a fourth `TO` renamed `<dataname>_TO`; building those names without a name raises TypeError |
| Measurements.MeasurementLine | spicelib/log/ltsteps.py:415-426 | a `Measurement: ` line names the block after its 13th character; a named block's rows are stored first when there are any, and its headers and rows are reset, while an unnamed block's carry over |
| Measurements.TabLine | spicelib/log/ltsteps.py:428-443 | a line with fewer than two tab fields changes nothing; an integer-led one adds its converted fields as a row; any other is a header row that resets the rows; none touches the dataset |
| Measurements.DataLineStep | spicelib/log/ltsteps.py:429-434 | a data row adds its converted fields and changes nothing else |
| Measurements.ReadDataLine | spicelib/log/ltsteps.py:413-445 | reading a data row continues the section with the row added |
| Measurements.DataRowsAppend | spicelib/log/ltsteps.py:428-434 | a run of data rows adds its rows, in file order, to the open block |
| Measurements.DataLinesAddRows | spicelib/log/ltsteps.py:428-434 | every data row in a run adds its row whatever the block holds |
| Measurements.DataLineAddsRow | spicelib/log/ltsteps.py:428-434 | a data row adds its row whatever the block holds |
| Measurements.ReadLine | spicelib/log/ltsteps.py:413-445 | reading a line moves the section on with the state the line leaves |
| Measurements.HeaderLineStep | spicelib/log/ltsteps.py:435-441 | a header row sets the headers, drops the rows and keeps the name and the dataset |
| Measurements.OpensBlock | spicelib/log/ltsteps.py:425 | a `Measurement: ` line names the block after its tag |
| Measurements.ReadHeaderLine | spicelib/log/ltsteps.py:435-441 | reading a header row continues with the new headers and no rows |
| Measurements.RowsIntoEmptyBlock | spicelib/log/ltsteps.py:428-434 | data rows read into a block without rows become its rows |
| Measurements.BlockBody | spicelib/log/ltsteps.py:428-441 | a header row and the data rows after it give the block its headers and its rows |
| Measurements.MeasureBlock | spicelib/log/ltsteps.py:413-445 | a whole block leaves its name, its header row's headers and its data rows in file order |
| Measurements.LastBlock | spicelib/log/ltsteps.py:447-453 | at end of input the last block is stored when it has rows, and the dataset is unchanged otherwise |
| Measurements.NextBlock | spicelib/log/ltsteps.py:415-425 | the next `Measurement: ` line stores a named block with rows and opens an empty one, and a failed store ends the section with its error |
| Measurements.GatherColumn | spicelib/log/ltsteps.py:422 | the list comprehension computes `Column` |
| Measurements.StoreBlock | spicelib/log/ltsteps.py:421-422 | the store loop computes `Store` |
| Measurements.OpenNext | spicelib/log/ltsteps.py:415-426 | the `Measurement: ` branch computes `OpenBlock` |
| Measurements.ProcessLine | spicelib/log/ltsteps.py:414-443 | the loop body computes `MeasureLine` |
| Measurements.ReadMeasurements | spicelib/log/ltsteps.py:409-453 | the measurement loop and its final store compute `MeasureSection` |
| LogReader.SteplessEffect | spicelib/log/ltsteps.py:389-406 | a stepless match stores one-element columns: the value under the name; with a `from`, also `<name>_FROM` and `<name>_TO`; otherwise, with an `at`, `<name>_at`; every other key is kept, so a later match of the same name overwrites |
| LogReader.SteplessFrom | spicelib/log/ltsteps.py:394-396 | with a `from` the name, `_FROM` and `_TO` columns are stored, in that order |
| LogReader.SteplessAt | spicelib/log/ltsteps.py:397-399 | with an `at` and no `from` the name and `_at` columns are stored |
| LogReader.SteplessPlain | spicelib/log/ltsteps.py:400-402 | with neither, only the name's column is stored |
| LogReader.SteplessGrows | spicelib/log/ltsteps.py:404-406 | a stepless match keeps every key and only adds or replaces one-element columns |
| LogReader.TitlesDiffer | spicelib/log/ltsteps.py:395-398 | the titles a match writes are pairwise different |
| LogReader.StepKeyEffect | spicelib/log/ltsteps.py:371-380 | one parameter's share of what a key gains |
| LogReader.StepParamsOk | spicelib/log/ltsteps.py:371-372 | a `.step` line's parameters are read exactly when each splits at `=` into two parts, and ValueError is raised otherwise |
| LogReader.StepParamsEffect | spicelib/log/ltsteps.py:371-380 | every parameter's list gains, at its end and in line order, the converted values the line gives it (created on first sight); other lists are kept |
| LogReader.StepLineEffect | spicelib/log/ltsteps.py:368-380 | a `.step` line counts exactly one more step and appends each parameter's values in order; the dataset and the analyses are untouched; ValueError exactly on a malformed token |
| LogReader.FourierPass | spicelib/log/ltsteps.py:327-366 | the table of an `N-Period` block ends at least six lines after it |
| LogReader.FourierPassEffect | spicelib/log/ltsteps.py:362-366 | the analysis, tagged `step_count - 1`, goes at the end of its signal's list (created for a new signal); nothing else changes |
| LogReader.Dispatch | spicelib/log/ltsteps.py:368-407 | the tests after the Fourier one go on to the given next line |
| LogReader.PreambleLine | spicelib/log/ltsteps.py:326-407 | a pass always moves forward in the file |
| LogReader.AfterLineKeeps | spicelib/log/ltsteps.py:389-406 | the stepless test keeps the attributes well formed and changes the dataset only while no step is counted |
| LogReader.StepLineKeeps | spicelib/log/ltsteps.py:368-380 | a `.step` line keeps the attributes well formed and only adds to them |
| LogReader.FileAnalysisKeeps | spicelib/log/ltsteps.py:362-366 | filing an analysis tagged with the last step keeps every analysis under its own signal and tagged with a step already counted |
| LogReader.PreambleLineKeeps | spicelib/log/ltsteps.py:326-407 | one pass of the preamble keeps the attributes well formed and only adds to them |
| LogReader.PreambleKeeps | spicelib/log/ltsteps.py:326-407 | the preamble never lowers the step count; it only extends parameter and analysis lists; it only adds or replaces one-element named dataset columns, and none once a step is counted |
| LogReader.Passes | spicelib/log/ltsteps.py:326-407 | the lines the preamble loop's passes begin at, in order: `PassesAhead` and `PassesIncrease` state that they increase from the starting line and that none is a `Measurement:` line |
| LogReader.StepLines | spicelib/log/ltsteps.py:368 | the `.step` lines among the lines at the given passes, in order; every one starts with `.step` |
| LogReader.Extend | spicelib/log/ltsteps.py:363-366 | a list that may be absent, extended at its end by the given values |
| LogReader.TagsDiffer | spicelib/log/ltsteps.py:327-382 | no line starts with two of `N-Period`, `.step` and `Measurement:` |
| LogReader.PassNotMeasurement | spicelib/log/ltsteps.py:382-387 | a pass after which the loop goes on did not begin at a `Measurement:` line |
| LogReader.PassSteps | spicelib/log/ltsteps.py:326-407 | a pass counts one step exactly when it began at a `.step` line, and each parameter's list gains the values that line assigns to it |
| LogReader.StepPass | spicelib/log/ltsteps.py:368-381 | a pass at a `.step` line goes on with one more step and each parameter's list extended by the line's values |
| LogReader.OtherPass | spicelib/log/ltsteps.py:327-407 | a pass at any other line, an `N-Period` block included, counts no step and leaves the parameter lists alone |
| LogReader.PreambleSteps | spicelib/log/ltsteps.py:326-407 | over the whole preamble, `step_count` rises by exactly the number of `.step` lines the loop reads, and every parameter's list gains, at its end and in file order, the values those lines assign to it |
| LogReader.OncePerLine | spicelib/log/ltsteps.py:368-380 | lines that each assign a parameter once give it one value per line |
| LogReader.PreambleStepCount | spicelib/log/ltsteps.py:326-407 | a parameter that every `.step` line of the preamble names once grows by exactly as many values as `step_count` rises |
| LogReader.PreambleStops | spicelib/log/ltsteps.py:326-387 | the preamble stops only at end of file or at a `Measurement:` line and returns from the constructor only when measurements are not wanted; the passes before it begin at increasing lines before that line, none a `Measurement:` line, so the loop stops at the first `Measurement:` line it reaches |
| LogReader.PreambleExit | spicelib/log/ltsteps.py:326-387 | where and how the preamble loop ends |
| LogReader.PassesAhead | spicelib/log/ltsteps.py:326-387 | every pass begins at a line of the file from the starting line on, and not at a `Measurement:` line |
| LogReader.PassesIncrease | spicelib/log/ltsteps.py:326-407 | the passes begin at increasing lines |
| LogReader.PassesBeforeExit | spicelib/log/ltsteps.py:326-387 | every pass begins before the line where the loop stops for the measurements |
| LogReader.ReadMeasuresOnlyExit | spicelib/log/ltsteps.py:382-387 | `read_measures` decides only how the preamble ends: same attributes or same exception, returning where the other reading would go on to the measurements |
| LogReader.WithoutMeasures | spicelib/log/ltsteps.py:382-385 | with `read_measures` false the reader succeeds whenever it does with it; the step count, parameters and analyses are the same; its dataset holds only the initial columns and one-element stepless columns |
| LogReader.StoreStepless | spicelib/log/ltsteps.py:404-406 | the title loop computes the stepless store |
| LogReader.RecordStepless | spicelib/log/ltsteps.py:389-406 | the stepless test computes `AfterLine` |
| LogReader.AppendParam | spicelib/log/ltsteps.py:376-380 | `ll.append(rhs)` or `stepset[lhs] = [rhs]` is append-or-create, an empty list included |
| LogReader.ReadStepLine | spicelib/log/ltsteps.py:368-380 | the `.step` branch and its token loop compute `StepLine` |
| LogReader.ReadFourierPass | spicelib/log/ltsteps.py:327-366 | the `N-Period` branch computes `FourierPass` |
| LogReader.DispatchLine | spicelib/log/ltsteps.py:368-406 | the later branches compute `Dispatch` |
| LogReader.PreambleStep | spicelib/log/ltsteps.py:326-407 | one pass of the loop computes `PreambleLine` |
| LogReader.ReadPreamble | spicelib/log/ltsteps.py:324-407 | the `while line:` loop computes `PreambleFrom` from the first line |
| LogReader.ReadLogFile | spicelib/log/ltsteps.py:299-456 | the constructor computes `ReadLog`: the preamble, then, unless it returned, the measurement section from where it stopped |

## Left out

- File I/O: `detect_encoding`, `open`, `readline` and writing. The input is the sequence of lines `readline` returns, and the output of `reformat_LTSpice_export` is the sequence of strings written.
- `LTSpiceLogReader.export_data`: it renders floats into a file and calls into the base class.
- `measure_count`: it is diagnostic only.
- Logging calls.
- The `LogfileData` base class and `try_convert_value`: they live in files that are not part of this model.
  - The base class's initial `step_count`, `stepset` (or the given `step_set`) and `dataset` are a parameter (`LogReader.BaseState`).
  - `try_convert_value` is a given function.
  - A data row of the measurement section is converted field by field; the model assumes the helper maps over a list.
- When `step_set` is given, the reader appends to the caller's lists in place. The model works on values, so the caller's lists are not shown changing.
- Floating point: `float()`, `int()` and the `\d+.\d+` figure search are given functions returning optional values; no rounding is reasoned about.
- The stepless-measurement regular expression is a given function returning its named groups (`LogReader.Matcher`). Only what the constructor does with the groups is modelled.
- `\w` and `\d` in the `Step Information` pattern are taken over ASCII, not full Unicode.
- `FourierData.__len__` and `__iter__` are the length and the harmonics themselves (`Harmonics.FourierData.Length`); they carry no contract.
- PreambleStops: states that the loop stops at the first `Measurement:` line it reaches (for `read_measures` false, `ReadMeasuresOnlyExit` puts the return at that same line). It does not state that the result is independent of the lines after that line.
- Reformat.WrittenFile: what the output file holds is the sequence of strings written; buffering, and whether an unclosed file is flushed after an exception, are not modelled.
- Where the source and its description disagree, the model follows the code.
  - An export without any matching divider is described as filling the columns by header.
  - The code never creates those columns, so its first data line raises KeyError (`ExportReader.ExportNeedsDivider`).
