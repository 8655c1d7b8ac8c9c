/**
 * The harmonic-analysis records of an LTspice log: one `HarmonicData` per row
 * of a Fourier table and one `FourierData` per analysed signal and run
 * (`HarmonicData` and `FourierData` in spicelib/log/ltsteps.py).
 */
module Harmonics {
  import opened Wrappers
  import opened Text
  import opened Values

  /** The degree sign LTspice appends to phase columns. */
  const Degree: char := '\U{00B0}'

  datatype HarmonicData = HarmonicData(
    harmonicNumber: int,
    frequency: real,
    fourierComponent: real,
    normalizedComponent: real,
    phase: real,
    normalizedPhase: real)

  /** `parse(tokens[i])`: IndexError past the last token, ValueError when the parse fails. */
  function Field<T>(tokens: seq<string>, i: nat, parse: string -> Option<T>): (r: Result<T, Raised>)
    ensures r.Success? <==> i < |tokens| && parse(tokens[i]).Some?
    ensures r.Success? ==> r.value == parse(tokens[i]).value
    ensures r.Failure? ==> r.error == (if i < |tokens| then ValueError else IndexError)
  {
    if i < |tokens| then
      match parse(tokens[i])
      case Some(x) => Success(x)
      case None => Failure(ValueError)
    else Failure(IndexError)
  }

  /** `float(s.rstrip('°'))` */
  function PhaseOf(s: string, conv: Conversions): Option<real> {
    conv.toFloat(RStrip(s, Degree))
  }

  /** The first six whitespace tokens of a harmonic row all convert. */
  predicate IsHarmonicRow(tokens: seq<string>, conv: Conversions) {
    && |tokens| >= 6
    && conv.toInt(tokens[0]).Some?
    && conv.toFloat(tokens[1]).Some?
    && conv.toFloat(tokens[2]).Some?
    && conv.toFloat(tokens[3]).Some?
    && PhaseOf(tokens[4], conv).Some?
    && PhaseOf(tokens[5], conv).Some?
  }

  /**
   * `HarmonicData.from_line`: the first six whitespace tokens are the harmonic
   * number, frequency, Fourier component, normalized component, phase and
   * normalized phase; trailing degree signs are dropped from the two phases
   * only, and tokens after the sixth are ignored.
   */
  function FromLine(line: string, conv: Conversions): Result<HarmonicData, Raised>
  {
    RowOf(Words(line), conv)
  }

  function RowOf(tokens: seq<string>, conv: Conversions): (r: Result<HarmonicData, Raised>)
    ensures r.Success? <==> IsHarmonicRow(tokens, conv)
    ensures r.Success? ==> r.value == HarmonicData(
        conv.toInt(tokens[0]).value, conv.toFloat(tokens[1]).value, conv.toFloat(tokens[2]).value,
        conv.toFloat(tokens[3]).value, PhaseOf(tokens[4], conv).value, PhaseOf(tokens[5], conv).value)
    ensures r.Failure? ==> r.error == IndexError || r.error == ValueError
  {
    var number :- Field(tokens, 0, conv.toInt);
    var frequency :- Field(tokens, 1, conv.toFloat);
    var component :- Field(tokens, 2, conv.toFloat);
    var normalized :- Field(tokens, 3, conv.toFloat);
    var phase :- Field(tokens, 4, s => PhaseOf(s, conv));
    var normalizedPhase :- Field(tokens, 5, s => PhaseOf(s, conv));
    Success(HarmonicData(number, frequency, component, normalized, phase, normalizedPhase))
  }

  /** Rows that agree on their first four tokens and on their phases read alike. */
  lemma SameRow(t1: seq<string>, t2: seq<string>, conv: Conversions)
    requires |t1| >= 6 && |t2| >= 6 && t1[..4] == t2[..4]
    requires PhaseOf(t1[4], conv) == PhaseOf(t2[4], conv)
    requires PhaseOf(t1[5], conv) == PhaseOf(t2[5], conv)
    ensures RowOf(t1, conv) == RowOf(t2, conv)
  {
    assert t1[0] == t2[0] && t1[1] == t2[1] && t1[2] == t2[2] && t1[3] == t2[3] by {
      assert t1[0] == t1[..4][0] && t2[0] == t2[..4][0];
      assert t1[1] == t1[..4][1] && t2[1] == t2[..4][1];
      assert t1[2] == t1[..4][2] && t2[2] == t2[..4][2];
      assert t1[3] == t1[..4][3] && t2[3] == t2[..4][3];
    }
  }

  /** Appending a degree sign does not change what `rstrip('°')` leaves. */
  lemma RStripDegree(w: string)
    ensures RStrip(w + [Degree], Degree) == RStrip(w, Degree)
  {
    assert (w + [Degree])[..|w|] == w;
  }

  /**
   * A harmonic row reads the same whether or not its two phase columns carry
   * degree signs, and whatever follows its sixth token.
   */
  lemma {:induction false} FromLineIgnoresDegreesAndExtras(t: seq<string>, extra: seq<string>, conv: Conversions)
    requires |t| == 6 && forall i :: 0 <= i < |t| ==> IsWord(t[i])
    requires forall i :: 0 <= i < |extra| ==> IsWord(extra[i])
    ensures var marked := t[..4] + [t[4] + [Degree], t[5] + [Degree]] + extra;
      FromLine(Join(marked, " "), conv) == FromLine(Join(t, " "), conv)
  {
    var marked := t[..4] + [t[4] + [Degree], t[5] + [Degree]] + extra;
    assert |marked| >= 6 && marked[..4] == t[..4];
    assert marked[4] == t[4] + [Degree] && marked[5] == t[5] + [Degree];
    assert forall i :: 0 <= i < |marked| ==> IsWord(marked[i]) by {
      forall i | 0 <= i < |marked| ensures IsWord(marked[i]) {
        if i < 4 {
          assert marked[i] == t[i];
        } else if i >= 6 {
          assert marked[i] == extra[i - 6];
        }
      }
    }
    WordsJoin(marked);
    WordsJoin(t);
    RStripDegree(t[4]);
    RStripDegree(t[5]);
    SameRow(marked, t, conv);
  }

  /**
   * One Fourier analysis (`FourierData`): `nPeriods` is -1 for "all periods";
   * `phd` and `thd` are None when the log reports no such figure; `step` is
   * the run the analysis belongs to.
   */
  datatype FourierData = FourierData(
    signal: string,
    nPeriods: real,
    dcComponent: real,
    phd: Option<real>,
    thd: Option<real>,
    harmonics: seq<HarmonicData>,
    step: int)
  {
    /** The `fundamental` property: the first harmonic's frequency; IndexError without harmonics. */
    function Fundamental(): (r: Result<real, Raised>)
      ensures r.Success? <==> Length() > 0
      ensures r.Success? ==> Item(0).Success? && r.value == Item(0).value.frequency
      ensures r.Failure? ==> r.error == IndexError
    {
      if |harmonics| > 0 then Success(harmonics[0].frequency) else Failure(IndexError)
    }

    /** `len(analysis)`: the number of harmonics. */
    function Length(): nat {
      |harmonics|
    }

    /**
     * `analysis[i]`: Python list indexing into the harmonics, negative
     * indices counting from the end; IndexError outside.
     */
    function Item(i: int): (r: Result<HarmonicData, Raised>)
      ensures r.Success? <==> -(Length() as int) <= i < Length()
      ensures r.Success? && 0 <= i ==> r.value == harmonics[i]
      ensures r.Success? && i < 0 ==> r.value == harmonics[i + Length()]
      ensures r.Failure? ==> r.error == IndexError
    {
      if 0 <= i < |harmonics| then Success(harmonics[i])
      else if -|harmonics| <= i < 0 then Success(harmonics[i + |harmonics|])
      else Failure(IndexError)
    }
  }
}
