/**
 * The values the readers store and the conversions they borrow.
 *
 * `try_convert_value` lives in logfile_data.py, which is not part of this
 * model, and `int()`, `float()` and the distortion-figure regular expression
 * are Python's; all four are taken as given functions, gathered in
 * `Conversions`. Floats are modelled as reals: no rounding is reasoned about.
 */
module Values {
  import opened Wrappers
  import opened Text

  /** What `try_convert_value` returns: an integer, a float, or the text unchanged. */
  datatype Value = IntValue(i: int) | FloatValue(f: real) | StrValue(s: string)

  /** The Python exceptions a reader can raise on malformed input; any of them aborts the read. */
  datatype Raised = ValueError | IndexError | KeyError | TypeError | AttributeError

  datatype Conversions = Conversions(
    /** `try_convert_value(s)` */
    convert: string -> Value,
    /** `int(s)`; None where Python raises ValueError */
    toInt: string -> Option<int>,
    /** `float(s)`; None where Python raises ValueError */
    toFloat: string -> Option<real>,
    /**
     * `float(re.search(r"\d+.\d+", s).group())`: AttributeError when nothing
     * matches, ValueError when the match is not a float
     */
    figure: string -> Result<real, Raised>)

  /** `float(s)` as a call that either returns or raises ValueError. */
  function FloatOf(s: string, conv: Conversions): (r: Result<real, Raised>)
    ensures r.Success? <==> conv.toFloat(s).Some?
    ensures r.Success? ==> r.value == conv.toFloat(s).value
    ensures r.Failure? ==> r.error == ValueError
  {
    match conv.toFloat(s)
    case Some(x) => Success(x)
    case None => Failure(ValueError)
  }

  /** `key, value = param.split('=')`: exactly one `=`, or ValueError. */
  function KeyValue(param: string): (r: Result<(string, string), Raised>)
    ensures r.Success? <==> |Split(param, "=")| == 2
    ensures r.Success? ==> [r.value.0, r.value.1] == Split(param, "=")
    ensures r.Failure? ==> r.error == ValueError
  {
    var parts := Split(param, "=");
    if |parts| == 2 then Success((parts[0], parts[1])) else Failure(ValueError)
  }
}
