/**
 * The "Step Information" divider lines of an LTspice waveform export, such as
 * `Step Information: Ton=400m  (Run: 2/2)`, and the regular expression both
 * export readers use on them:
 *
 *   Step Information: ([\w=\d\. -]+) +\(Run: (\d*)/\d*\)\n
 *
 * matched at the start of the line. The classes `\w` and `\d` are taken over
 * ASCII only.
 */
module StepInfo {
  import opened Wrappers
  import opened Text

  /** The prefix that marks a divider line, whether or not the rest matches. */
  const Marker := "Step Information:"
  const Prefix := "Step Information: "
  const RunTag := "(Run: "

  predicate IsDigit(c: char) {
    '0' <= c <= '9'
  }

  predicate IsWordChar(c: char) {
    'a' <= c <= 'z' || 'A' <= c <= 'Z' || IsDigit(c) || c == '_'
  }

  /** The class `[\w=\d\. -]` of the parameter group. */
  predicate InStepClass(c: char) {
    IsWordChar(c) || c == '=' || c == '.' || c == ' ' || c == '-'
  }

  /** The length of the longest prefix of `s` whose characters satisfy `p`. */
  function Span(s: string, p: char -> bool): (n: nat)
    ensures n <= |s|
    ensures forall i :: 0 <= i < n ==> p(s[i])
    ensures n < |s| ==> !p(s[n])
  {
    if s != "" && p(s[0]) then 1 + Span(s[1..], p) else 0
  }

  /** The two groups of a match: the parameter assignments and the run number. */
  datatype StepMatch = StepMatch(step: string, run: string)

  /**
   * `regx.match(line)`. The parameter group is greedy, so it takes everything
   * up to the `(` of `(Run: ` except the last of the spaces before it.
   */
  function MatchStepInfo(line: string): (m: Option<StepMatch>)
    ensures m.Some? ==> StartsWith(line, Marker)
  {
    if !StartsWith(line, Prefix) then None
    else
      assert line[..|Marker|] == line[..|Prefix|][..|Marker|];
      MatchGroups(line[|Prefix|..])
  }

  /** The part of the match after the prefix: the parameter group, the spaces and the run tag. */
  function MatchGroups(rest: string): Option<StepMatch> {
    var j := Span(rest, InStepClass);
    if j < 2 || rest[j - 1] != ' ' || !StartsWith(rest[j..], RunTag) then None
    else
      match MatchRunTail(rest[j + |RunTag|..])
      case None => None
      case Some(run) => Some(StepMatch(rest[..j - 1], run))
  }

  /** The `(\d*)/\d*\)\n` that follows `(Run: `, giving the run number. */
  function MatchRunTail(tail: string): (run: Option<string>)
    ensures run.Some? ==> IsNumber(run.value) && StartsWith(tail, run.value + "/")
  {
    var d1 := Span(tail, IsDigit);
    if d1 == |tail| || tail[d1] != '/' then None
    else
      var tail2 := tail[d1 + 1..];
      var d2 := Span(tail2, IsDigit);
      if !StartsWith(tail2[d2..], ")\n") then None
      else
        assert tail[..d1 + 1] == tail[..d1] + "/";
        Some(tail[..d1])
  }

  /** A marker line that starts with the prefix and matches the pattern. */
  predicate IsStepMarker(line: string) {
    StartsWith(line, Marker) && MatchStepInfo(line).Some?
  }

  /** A parameter name or value as LTspice prints it: word characters, dots and minus signs. */
  predicate IsToken(s: string) {
    s != "" && forall i :: 0 <= i < |s| ==> IsWordChar(s[i]) || s[i] == '.' || s[i] == '-'
  }

  predicate IsNumber(s: string) {
    forall i :: 0 <= i < |s| ==> IsDigit(s[i])
  }

  function Assignments(names: seq<string>, values: seq<string>): (a: seq<string>)
    requires |names| == |values|
    ensures |a| == |names|
    ensures forall i :: 0 <= i < |a| ==> a[i] == names[i] + "=" + values[i]
  {
    if names == [] then [] else [names[0] + "=" + values[0]] + Assignments(names[1..], values[1..])
  }

  /** The divider LTspice writes before the rows of run `run` out of `total`. */
  function MarkerLine(names: seq<string>, values: seq<string>, run: string, total: string): string
    requires |names| == |values|
  {
    Prefix + Join(Assignments(names, values), " ") + "  " + RunTag + run + "/" + total + ")\n"
  }

  lemma {:induction false} SpanOfPrefix(a: string, b: string, p: char -> bool)
    requires forall i :: 0 <= i < |a| ==> p(a[i])
    requires b == "" || !p(b[0])
    ensures Span(a + b, p) == |a|
    decreases |a|
  {
    if a != "" {
      assert (a + b)[1..] == a[1..] + b;
      SpanOfPrefix(a[1..], b, p);
    }
  }

  lemma {:induction false} JoinInStepClass(ws: seq<string>)
    requires forall i, k :: 0 <= i < |ws| && 0 <= k < |ws[i]| ==> InStepClass(ws[i][k])
    ensures forall k :: 0 <= k < |Join(ws, " ")| ==> InStepClass(Join(ws, " ")[k])
  {
    if |ws| > 1 {
      JoinInStepClass(ws[1..]);
      JoinCons(ws, " ");
      var s := Join(ws, " ");
      var r := Join(ws[1..], " ");
      forall k | 0 <= k < |s| ensures InStepClass(s[k]) {
        if k < |ws[0]| {
          assert s[k] == ws[0][k];
        } else if k > |ws[0]| {
          assert s[k] == r[k - |ws[0]| - 1];
        }
      }
    }
  }

  lemma AssignmentsInStepClass(names: seq<string>, values: seq<string>)
    requires |names| == |values|
    requires forall i :: 0 <= i < |names| ==> IsToken(names[i]) && IsToken(values[i])
    ensures var a := Assignments(names, values);
      forall i, k :: 0 <= i < |a| && 0 <= k < |a[i]| ==> InStepClass(a[i][k])
  {
    var a := Assignments(names, values);
    forall i, k | 0 <= i < |a| && 0 <= k < |a[i]| ensures InStepClass(a[i][k]) {
      var n, v := names[i], values[i];
      assert a[i] == n + "=" + v;
      if k < |n| {
        assert a[i][k] == n[k];
      } else if k > |n| {
        assert a[i][k] == v[k - |n| - 1];
      }
    }
  }

  /** Any parameter text made of the class, followed by the run tag, matches with its groups. */
  lemma DividerMatches(body: string, run: string, total: string)
    requires forall k :: 0 <= k < |body| ==> InStepClass(body[k])
    requires IsNumber(run) && IsNumber(total)
    ensures MatchStepInfo(Prefix + body + "  " + RunTag + run + "/" + total + ")\n")
         == Some(StepMatch(body + " ", run))
  {
    var rest := body + "  " + RunTag + run + "/" + total + ")\n";
    assert Prefix + body + "  " + RunTag + run + "/" + total + ")\n" == Prefix + rest;
    SlicesOfConcat(Prefix, rest);
    GroupsMatch(body, run, total);
  }

  lemma GroupsMatch(body: string, run: string, total: string)
    requires forall k :: 0 <= k < |body| ==> InStepClass(body[k])
    requires IsNumber(run) && IsNumber(total)
    ensures MatchGroups(body + "  " + RunTag + run + "/" + total + ")\n") == Some(StepMatch(body + " ", run))
  {
    var tail := run + "/" + total + ")\n";
    var after := RunTag + tail;
    var rest := body + "  " + after;
    assert body + "  " + RunTag + run + "/" + total + ")\n" == rest;
    GroupSpan(body, after);
    var j := |body| + 2;
    assert rest == (body + " ") + (" " + after);
    SlicesOfConcat(body + " ", " " + after);
    assert rest == (body + "  ") + after;
    SlicesOfConcat(body + "  ", after);
    SlicesOfConcat(RunTag, tail);
    assert rest[j + |RunTag|..] == tail;
    RunTailMatches(run, total);
  }

  lemma GroupSpan(body: string, after: string)
    requires forall k :: 0 <= k < |body| ==> InStepClass(body[k])
    requires StartsWith(after, RunTag)
    ensures Span(body + "  " + after, InStepClass) == |body| + 2
  {
    var group := body + "  ";
    forall k | 0 <= k < |group| ensures InStepClass(group[k]) {
      if k < |body| {
        assert group[k] == body[k];
      }
    }
    assert after[0] == RunTag[0];
    SpanOfPrefix(group, after, InStepClass);
  }

  lemma SlicesOfConcat(a: string, b: string)
    ensures (a + b)[..|a|] == a && (a + b)[|a|..] == b
  {
  }

  lemma RunTailMatches(run: string, total: string)
    requires IsNumber(run) && IsNumber(total)
    ensures MatchRunTail(run + "/" + total + ")\n") == Some(run)
  {
    var tail := run + "/" + total + ")\n";
    SpanOfPrefix(run, "/" + total + ")\n", IsDigit);
    assert tail[|run|] == '/';
    var tail2 := total + ")\n";
    assert tail[|run| + 1..] == tail2;
    SpanOfPrefix(total, ")\n", IsDigit);
    assert tail2[|total|..] == ")\n";
    assert tail[..|run|] == run;
  }

  /**
   * The divider LTspice writes is matched, and its groups are the assignments
   * (with the one space the greedy group keeps) and the run number.
   */
  lemma MarkerLineMatches(names: seq<string>, values: seq<string>, run: string, total: string)
    requires |names| == |values|
    requires forall i :: 0 <= i < |names| ==> IsToken(names[i]) && IsToken(values[i])
    requires IsNumber(run) && IsNumber(total)
    ensures MatchStepInfo(MarkerLine(names, values, run, total))
         == Some(StepMatch(Join(Assignments(names, values), " ") + " ", run))
  {
    AssignmentsInStepClass(names, values);
    JoinInStepClass(Assignments(names, values));
    DividerMatches(Join(Assignments(names, values), " "), run, total);
  }

  /** `name=value` is one whitespace token, and splits at `=` into the name and the value. */
  lemma AssignmentSplits(n: string, v: string)
    requires IsToken(n) && IsToken(v)
    ensures IsWord(n + "=" + v) && Split(n + "=" + v, "=") == [n, v]
  {
    var a := n + "=" + v;
    assert a == n + ['='] + v;
    SplitPair(n, v, '=');
    forall k | 0 <= k < |a| ensures !IsSpace(a[k]) {
      if k < |n| {
        assert a[k] == n[k];
      } else if k > |n| {
        assert a[k] == v[k - |n| - 1];
      }
    }
  }

  /**
   * The parameter group a divider carries splits on whitespace into its
   * assignments, and each assignment at `=` into its name and value.
   */
  lemma AssignmentWords(names: seq<string>, values: seq<string>)
    requires |names| == |values|
    requires forall i :: 0 <= i < |names| ==> IsToken(names[i]) && IsToken(values[i])
    ensures Words(Join(Assignments(names, values), " ") + " ") == Assignments(names, values)
    ensures forall i :: 0 <= i < |names| ==> Split(Assignments(names, values)[i], "=") == [names[i], values[i]]
  {
    var a := Assignments(names, values);
    forall i | 0 <= i < |a| ensures IsWord(a[i]) && Split(a[i], "=") == [names[i], values[i]] {
      AssignmentSplits(names[i], values[i]);
    }
    WordsJoinSpace(a);
  }
}
