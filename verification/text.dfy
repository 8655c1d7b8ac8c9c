/**
 * The Python string operations the LTspice readers rely on: `startswith`,
 * `split(sep)`, `split()`, `join`, `strip('\r\n')` and `rstrip(c)`.
 * Strings are sequences of characters; no encoding is involved.
 */
module Text {
  import opened Wrappers

  predicate StartsWith(s: string, prefix: string) {
    |prefix| <= |s| && s[..|prefix|] == prefix
  }

  /** `sep` occurs in `s` starting at index `j`. */
  predicate OccursAt(s: string, sep: string, j: int) {
    0 <= j && j + |sep| <= |s| && s[j..j + |sep|] == sep
  }

  /** The index of the first occurrence of `sep` in `s` at or after `from` (Python's `str.find`). */
  function FindFrom(s: string, sep: string, from: nat): (r: Option<nat>)
    requires sep != ""
    ensures r.Some? ==> from <= r.value && OccursAt(s, sep, r.value)
    ensures forall j :: from <= j && (r.None? || j < r.value) ==> !OccursAt(s, sep, j)
    decreases |s| - from
  {
    if from + |sep| > |s| then None
    else if OccursAt(s, sep, from) then Some(from)
    else FindFrom(s, sep, from + 1)
  }

  /** `readline()` on a file whose lines are `lines`: the `i`-th line, or "" past the end. */
  function Readline(lines: seq<string>, i: nat): string {
    if i < |lines| then lines[i] else ""
  }

  /** Python's `s.split(sep)` for a non-empty separator: cut at every occurrence, left to right. */
  function Split(s: string, sep: string): (parts: seq<string>)
    requires sep != ""
    ensures |parts| >= 1
    decreases |s|
  {
    match FindFrom(s, sep, 0)
    case None => [s]
    case Some(k) => [s[..k]] + Split(s[k + |sep|..], sep)
  }

  lemma ConcatAssoc<T>(a: seq<T>, b: seq<T>, c: seq<T>)
    ensures a + b + c == a + (b + c)
  {
  }

  /** Python's `sep.join(parts)`. */
  function Join(parts: seq<string>, sep: string): string {
    if |parts| == 0 then ""
    else if |parts| == 1 then parts[0]
    else parts[0] + sep + Join(parts[1..], sep)
  }

  /** Python's `parts[-1]`. */
  function Last<T>(parts: seq<T>): T
    requires |parts| >= 1
  {
    parts[|parts| - 1]
  }

  /** Joining the pieces of a split with the same separator gives the string back. */
  lemma {:induction false} JoinSplit(s: string, sep: string)
    requires sep != ""
    ensures Join(Split(s, sep), sep) == s
    decreases |s|
  {
    match FindFrom(s, sep, 0)
    case None =>
    case Some(k) =>
      var rest := s[k + |sep|..];
      var pieces := Split(rest, sep);
      JoinSplit(rest, sep);
      assert Split(s, sep) == [s[..k]] + pieces;
      assert ([s[..k]] + pieces)[1..] == pieces;
      assert Join([s[..k]] + pieces, sep) == s[..k] + sep + rest;
      assert s == s[..k] + sep + rest by {
        assert s[k..k + |sep|] == sep;
        assert s == s[..k] + s[k..k + |sep|] + rest;
      }
  }

  /** No piece of a split contains the separator. */
  lemma {:induction false} SplitPiecesFree(s: string, sep: string, i: nat, j: int)
    requires sep != ""
    requires i < |Split(s, sep)|
    ensures !OccursAt(Split(s, sep)[i], sep, j)
    decreases |s|
  {
    match FindFrom(s, sep, 0)
    case None =>
    case Some(k) =>
      if i == 0 {
        if OccursAt(s[..k], sep, j) {
          assert s[..k][j..j + |sep|] == s[j..j + |sep|];
          assert OccursAt(s, sep, j);
        }
      } else {
        SplitPiecesFree(s[k + |sep|..], sep, i - 1, j);
      }
  }

  /** `t` ends `s`, and is either all of `s` or preceded in it by `sep`. */
  predicate AfterLast(s: string, sep: string, t: string) {
    && |t| <= |s| && s[|s| - |t|..] == t
    && (|t| < |s| ==> OccursAt(s, sep, |s| - |t| - |sep|))
  }

  /**
   * `s.split(sep)[-1]` is the text after the last occurrence of `sep`: a
   * suffix of `s` free of `sep`, and either all of `s` or preceded by `sep`.
   */
  lemma LastPiece(s: string, sep: string)
    requires sep != ""
    ensures AfterLast(s, sep, Last(Split(s, sep)))
    ensures forall j :: !OccursAt(Last(Split(s, sep)), sep, j)
  {
    var parts := Split(s, sep);
    forall j ensures !OccursAt(Last(parts), sep, j) {
      SplitPiecesFree(s, sep, |parts| - 1, j);
    }
    LastPieceSuffix(s, sep);
  }

  lemma LastPieceSuffix(s: string, sep: string)
    requires sep != ""
    ensures AfterLast(s, sep, Last(Split(s, sep)))
  {
    var parts := Split(s, sep);
    JoinSplit(s, sep);
    if |parts| > 1 {
      JoinLast(parts, sep);
      var x := Join(parts[..|parts| - 1], sep);
      var t := Last(parts);
      assert s == x + sep + t;
      assert s[|s| - |t|..] == t;
      assert s[|x|..|x| + |sep|] == sep;
    }
  }

  /** Joining two or more pieces puts the separator before the last one. */
  lemma {:induction false} JoinLast(parts: seq<string>, sep: string)
    requires |parts| > 1
    ensures Join(parts, sep) == Join(parts[..|parts| - 1], sep) + sep + Last(parts)
    decreases |parts|
  {
    var init := parts[..|parts| - 1];
    if |parts| == 2 {
      assert init == [parts[0]];
    } else {
      JoinLast(parts[1..], sep);
      JoinCons(parts, sep);
      JoinCons(init, sep);
      assert init[1..] == parts[1..][..|parts| - 2];
      assert Last(parts[1..]) == Last(parts);
    }
  }

  /** A string free of the one-character separator is a single piece. */
  lemma SplitFree(s: string, c: char)
    requires forall i :: 0 <= i < |s| ==> s[i] != c
    ensures Split(s, [c]) == [s]
  {
    NotOccurs(s, c);
  }

  lemma NotOccurs(s: string, c: char)
    requires forall i :: 0 <= i < |s| ==> s[i] != c
    ensures forall j :: !OccursAt(s, [c], j)
  {
    forall j ensures !OccursAt(s, [c], j) {
      if 0 <= j && j + 1 <= |s| {
        assert s[j..j + 1][0] == s[j];
      }
    }
  }

  /** `(a + c + b).split(c)` is `[a, b]` when neither side contains `c`. */
  lemma SplitPair(a: string, b: string, c: char)
    requires forall i :: 0 <= i < |a| ==> a[i] != c
    requires forall i :: 0 <= i < |b| ==> b[i] != c
    ensures Split(a + [c] + b, [c]) == [a, b]
  {
    var s := a + [c] + b;
    assert OccursAt(s, [c], |a|) by {
      assert s[|a|..|a| + 1] == [c];
    }
    NotOccurs(a, c);
    forall j | 0 <= j < |a| ensures !OccursAt(s, [c], j) {
      assert !OccursAt(a, [c], j);
      assert s[j..j + 1] == a[j..j + 1];
    }
    var k := FindFrom(s, [c], 0).value;
    assert k == |a|;
    assert s[..k] == a;
    assert s[k + 1..] == b;
    SplitFree(b, c);
  }

  /**
   * The characters Python's `str.split()` treats as whitespace: the ASCII
   * separators and the Unicode space characters.
   */
  predicate IsSpace(c: char) {
    var n := c as int;
    (9 <= n <= 13) || (28 <= n <= 32) || n == 0x85 || n == 0xA0 || n == 0x1680
    || (0x2000 <= n <= 0x200A) || n == 0x2028 || n == 0x2029 || n == 0x202F
    || n == 0x205F || n == 0x3000
  }

  /** A token of `str.split()`: non-empty and free of whitespace. */
  predicate IsWord(w: string) {
    w != "" && forall i :: 0 <= i < |w| ==> !IsSpace(w[i])
  }

  /** Python's `s.lstrip()`. */
  function SkipSpace(s: string): (t: string)
    ensures |t| <= |s|
  {
    if s != "" && IsSpace(s[0]) then SkipSpace(s[1..]) else s
  }

  /** `lstrip()` removes a prefix made of whitespace. */
  lemma {:induction false} SkipSpaceEffect(s: string)
    ensures var t := SkipSpace(s);
      && t == s[|s| - |t|..]
      && (forall i :: 0 <= i < |s| - |t| ==> IsSpace(s[i]))
    decreases |s|
  {
    if s != "" && IsSpace(s[0]) {
      SkipSpaceEffect(s[1..]);
    }
  }

  /** What `lstrip()` leaves does not start with whitespace. */
  lemma {:induction false} SkipSpaceFirst(s: string)
    ensures SkipSpace(s) != "" ==> !IsSpace(SkipSpace(s)[0])
    decreases |s|
  {
    if s != "" && IsSpace(s[0]) {
      SkipSpaceFirst(s[1..]);
    }
  }

  function WordLength(s: string): (n: nat)
    ensures n <= |s|
    ensures forall i :: 0 <= i < n ==> !IsSpace(s[i])
    ensures n < |s| ==> IsSpace(s[n])
  {
    if s != "" && !IsSpace(s[0]) then 1 + WordLength(s[1..]) else 0
  }

  /** Python's `s.split()`: the maximal runs of non-whitespace characters, in order. */
  function Words(s: string): seq<string>
    decreases |s|
  {
    var t := SkipSpace(s);
    if t == "" then []
    else
      var n := WordLength(t);
      [t[..n]] + Words(t[n..])
  }

  /** The first run of a string that starts with a non-space character is a word. */
  lemma FirstWord(t: string)
    requires t != "" && !IsSpace(t[0])
    ensures IsWord(t[..WordLength(t)])
  {
  }

  /** Every token of `split()` is a word: non-empty and free of whitespace. */
  lemma {:induction false} WordsAreWords(s: string)
    ensures forall i :: 0 <= i < |Words(s)| ==> IsWord(Words(s)[i])
    decreases |s|
  {
    var t := SkipSpace(s);
    if t != "" {
      SkipSpaceFirst(s);
      var n := WordLength(t);
      var rest := Words(t[n..]);
      FirstWord(t);
      WordsAreWords(t[n..]);
      assert Words(s) == [t[..n]] + rest;
      ConsWords(t[..n], rest);
    }
  }

  lemma ConsWords(w: string, rest: seq<string>)
    requires IsWord(w) && forall i :: 0 <= i < |rest| ==> IsWord(rest[i])
    ensures forall i :: 0 <= i < |[w] + rest| ==> IsWord(([w] + rest)[i])
  {
  }

  lemma WordsOfSpaceFirst(w: string)
    requires w != "" && IsSpace(w[0])
    ensures Words(w) == Words(w[1..])
  {
  }

  /** A single space holds no word. */
  lemma WordsOfSpace()
    ensures Words(" ") == []
  {
    assert SkipSpace(" ") == SkipSpace("");
  }

  /** A word, a space, then more: the word, then the tokens of the rest. */
  lemma WordsConsSpace(w: string, rest: string)
    requires IsWord(w)
    ensures Words(w + (" " + rest)) == [w] + Words(rest)
  {
    var spaced := " " + rest;
    WordsOfSpaceFirst(spaced);
    assert spaced[1..] == rest;
    WordsCons(w, spaced);
  }

  /** Splitting space-joined words on whitespace gives the words back. */
  lemma {:induction false} WordsJoin(ws: seq<string>)
    requires forall i :: 0 <= i < |ws| ==> IsWord(ws[i])
    ensures Words(Join(ws, " ")) == ws
    decreases |ws|
  {
    if |ws| == 1 {
      WordsCons(ws[0], "");
      assert ws[0] + "" == ws[0];
    } else if |ws| > 1 {
      var tl := ws[1..];
      WordsJoin(tl);
      WordsConsSpace(ws[0], Join(tl, " "));
      JoinCons(ws, " ");
      assert ws == [ws[0]] + tl;
    }
  }

  /** A word followed by one space splits into that word alone. */
  lemma WordThenSpace(w: string)
    requires IsWord(w)
    ensures Words(w + " ") == [w]
  {
    WordsCons(w, " ");
    WordsOfSpace();
    assert [w] + [] == [w];
  }

  /** The same holds with the trailing space LTspice leaves after the last word. */
  lemma {:induction false} WordsJoinSpace(ws: seq<string>)
    requires forall i :: 0 <= i < |ws| ==> IsWord(ws[i])
    ensures Words(Join(ws, " ") + " ") == ws
    decreases |ws|
  {
    if |ws| == 0 {
      assert Join(ws, " ") + " " == " ";
      WordsOfSpace();
    } else if |ws| == 1 {
      assert Join(ws, " ") + " " == ws[0] + " ";
      WordThenSpace(ws[0]);
    } else {
      var tl := ws[1..];
      WordsJoinSpace(tl);
      WordsConsSpace(ws[0], Join(tl, " ") + " ");
      JoinConsSpace(ws);
      assert ws == [ws[0]] + tl;
    }
  }

  lemma JoinConsSpace(ws: seq<string>)
    requires |ws| > 1
    ensures Join(ws, " ") + " " == ws[0] + (" " + (Join(ws[1..], " ") + " "))
  {
    JoinCons(ws, " ");
  }

  lemma JoinCons(parts: seq<string>, sep: string)
    requires |parts| > 1
    ensures Join(parts, sep) == parts[0] + (sep + Join(parts[1..], sep))
  {
  }

  /** A word followed by whitespace (or nothing) is the first token of `split()`. */
  lemma WordsCons(w: string, tail: string)
    requires IsWord(w)
    requires tail == "" || IsSpace(tail[0])
    ensures Words(w + tail) == [w] + Words(tail)
  {
    var s := w + tail;
    assert SkipSpace(s) == s;
    WordLengthOfWord(w, tail);
    assert s[..|w|] == w;
    assert s[|w|..] == tail;
  }

  lemma {:induction false} WordLengthOfWord(w: string, tail: string)
    requires IsWord(w)
    requires tail == "" || IsSpace(tail[0])
    ensures WordLength(w + tail) == |w|
    decreases |w|
  {
    if |w| > 1 {
      assert (w + tail)[1..] == w[1..] + tail;
      WordLengthOfWord(w[1..], tail);
    } else {
      assert (w + tail)[1..] == tail;
    }
  }

  predicate IsNewline(c: char) {
    c == '\r' || c == '\n'
  }

  function TrimNewlinesStart(s: string): (t: string)
    ensures |t| <= |s|
  {
    if s != "" && IsNewline(s[0]) then TrimNewlinesStart(s[1..]) else s
  }

  function TrimNewlinesEnd(s: string): (t: string)
    ensures |t| <= |s|
  {
    if s != "" && IsNewline(s[|s| - 1]) then TrimNewlinesEnd(s[..|s| - 1]) else s
  }

  /** Trimming the start removes a prefix of terminators, and what is left does not start with one. */
  lemma {:induction false} TrimStartEffect(s: string)
    ensures var t := TrimNewlinesStart(s);
      && t == s[|s| - |t|..]
      && (forall i :: 0 <= i < |s| - |t| ==> IsNewline(s[i]))
      && (t != "" ==> !IsNewline(t[0]))
    decreases |s|
  {
    if s != "" && IsNewline(s[0]) {
      TrimStartEffect(s[1..]);
    }
  }

  /** Trimming the end removes a suffix of terminators, and what is left does not end with one. */
  lemma {:induction false} TrimEndEffect(s: string)
    ensures var t := TrimNewlinesEnd(s);
      && t == s[..|t|]
      && (forall i :: |t| <= i < |s| ==> IsNewline(s[i]))
      && (t != "" ==> !IsNewline(t[|t| - 1]))
    decreases |s|
  {
    if s != "" && IsNewline(s[|s| - 1]) {
      TrimEndEffect(s[..|s| - 1]);
    }
  }

  /**
   * Python's `s.strip('\r\n')`. A line made of line terminators only (a blank
   * line as `readline` returns it) and the empty string of end of file both
   * strip to "", and nothing else does.
   */
  function StripNewlines(s: string): (t: string)
    ensures t == "" <==> forall i :: 0 <= i < |s| ==> IsNewline(s[i])
    ensures t != "" ==> !IsNewline(t[0]) && !IsNewline(t[|t| - 1])
    ensures s == "" || (!IsNewline(s[0]) && !IsNewline(s[|s| - 1])) ==> t == s
  {
    var u := TrimNewlinesStart(s);
    var t := TrimNewlinesEnd(u);
    StripNewlinesFacts(s, u, t);
    t
  }

  lemma StripNewlinesFacts(s: string, u: string, t: string)
    requires u == TrimNewlinesStart(s) && t == TrimNewlinesEnd(u)
    ensures t == "" <==> forall i :: 0 <= i < |s| ==> IsNewline(s[i])
    ensures t != "" ==> !IsNewline(t[0]) && !IsNewline(t[|t| - 1])
    ensures s == "" || (!IsNewline(s[0]) && !IsNewline(s[|s| - 1])) ==> t == s
  {
    StripNewlinesBlank(s, u, t);
    StripNewlinesKept(s, u, t);
    TrimStartEffect(s);
    TrimEndEffect(u);
  }

  lemma StripNewlinesBlank(s: string, u: string, t: string)
    requires u == TrimNewlinesStart(s) && t == TrimNewlinesEnd(u)
    ensures t == "" <==> forall i :: 0 <= i < |s| ==> IsNewline(s[i])
    ensures t != "" ==> t[0] == u[0]
  {
    TrimStartEffect(s);
    TrimEndEffect(u);
    assert u != "" ==> u[0] == s[|s| - |u|];
  }

  lemma StripNewlinesKept(s: string, u: string, t: string)
    requires u == TrimNewlinesStart(s) && t == TrimNewlinesEnd(u)
    ensures s == "" || (!IsNewline(s[0]) && !IsNewline(s[|s| - 1])) ==> t == s
  {
    if s != "" && !IsNewline(s[0]) && !IsNewline(s[|s| - 1]) {
      assert u == s;
    }
  }

  /** Every line with its terminators stripped. */
  function StrippedLines(lines: seq<string>): (rows: seq<string>)
    ensures |rows| == |lines|
    ensures forall i :: 0 <= i < |lines| ==> rows[i] == StripNewlines(lines[i])
  {
    seq(|lines|, i requires 0 <= i < |lines| => StripNewlines(lines[i]))
  }

  /** Reading a stripped line is stripping the line read, at end of file too. */
  lemma ReadStripped(lines: seq<string>, k: nat)
    ensures Readline(StrippedLines(lines), k) == StripNewlines(Readline(lines, k))
  {
  }

  /** Python's `s.rstrip(c)` for a single character `c`. */
  function RStrip(s: string, c: char): (t: string)
    ensures |t| <= |s| && t == s[..|t|]
    ensures forall i :: |t| <= i < |s| ==> s[i] == c
    ensures t == "" || t[|t| - 1] != c
  {
    if s != "" && s[|s| - 1] == c then RStrip(s[..|s| - 1], c) else s
  }
}
