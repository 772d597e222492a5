/**
  `replace_cmd`: placeholders in a command line are rewritten with resolved
  values. The regular expression is not modelled; its engine's output is the
  input here, as the non-overlapping, left-to-right spans of the matches,
  each with the span of its `key` capture group when that group took part.
 */
module Template {
  import opened Wrappers
  import opened SerdeJson
  import opened Decimal
  import Config

  /** The half-open character range `[start, end)` of the line. */
  datatype Span = Span(start: nat, end: nat)

  /** One match of the pattern and, when present, its `key` capture. */
  datatype Match = Match(whole: Span, key: Option<Span>)

  predicate Within(inner: Span, outer: Span) {
    outer.start <= inner.start <= inner.end <= outer.end
  }

  /** What a regex engine hands over: matches inside the line, captures inside their match, in order, disjoint. */
  predicate WellFormed(line: string, ms: seq<Match>) {
    && (forall i :: 0 <= i < |ms| ==>
          ms[i].whole.start <= ms[i].whole.end <= |line|
          && (ms[i].key.Some? ==> Within(ms[i].key.value, ms[i].whole)))
    && (forall i, j :: 0 <= i < j < |ms| ==> ms[i].whole.end <= ms[j].whole.start)
  }

  /** The text a resolved value contributes: strings raw, numbers in canonical decimal, anything else nothing. */
  function ValueText(v: Value): (r: string)
    ensures v.Str? ==> r == v.s
    ensures v.Num? ==> |r| > 0 && (r[0] == '-' <==> v.n < 0)
    ensures v.Num? ==>
              var digits := if v.n < 0 then r[1..] else r;
              && |digits| > 0 && AllDigits(digits)
              && (digits[0] == '0' ==> digits == "0")
              && ValueFrom(0, digits) == if v.n < 0 then -v.n else v.n
    ensures v.Num? && 0 <= v.n <= USIZE_MAX ==> ParseUsize(r) == Some(v.n)
    ensures v.Num? && v.n < 0 && -v.n <= USIZE_MAX ==> ParseUsize(r[1..]) == Some(-v.n)
    ensures !v.Str? && !v.Num? ==> r == ""
  {
    match v
    case Str(s) => s
    case Num(n) => IntToString(n)
    case _ => ""
  }

  /**
    The replacement for one match: its captured key is resolved with `get`,
    the first item of the query (if any) is turned into text. So a missing
    capture, an unresolved path, or a resolved null, boolean, array or
    object gives the empty string; a resolved string gives its raw text and
    a resolved number its decimal text.
   */
  function Replacement(c: Config.GlobalConfig, line: string, m: Match): (r: string)
    requires m.key.Some? ==> m.key.value.start <= m.key.value.end <= |line|
    ensures m.key.None? ==> r == ""
    ensures m.key.Some? ==>
              var resolved := Config.Lookup(c, line[m.key.value.start..m.key.value.end]);
              && (resolved.None? ==> r == "")
              && (resolved.Some? && resolved.value.Str? ==> r == resolved.value.s)
              && (resolved.Some? && resolved.value.Num? ==> r == IntToString(resolved.value.n))
              && (resolved.Some? && !resolved.value.Str? && !resolved.value.Num? ==> r == "")
    ensures r != "" ==> m.key.Some? && Config.Lookup(c, line[m.key.value.start..m.key.value.end]).Some?
  {
    match m.key
    case None => ""
    case Some(span) =>
      var query := Config.Value(Config.Lookup(c, line[span.start..span.end]));
      match Config.Next(query).0
      case Some(v) => ValueText(v)
      case None => ""
  }

  function Replacements(c: Config.GlobalConfig, line: string, ms: seq<Match>): (r: seq<string>)
    requires WellFormed(line, ms)
  {
    seq(|ms|, i requires 0 <= i < |ms| => Replacement(c, line, ms[i]))
  }

  /** The text each match covers. */
  function MatchedTexts(line: string, ms: seq<Match>): (r: seq<string>)
    requires WellFormed(line, ms)
  {
    seq(|ms|, i requires 0 <= i < |ms| => line[ms[i].whole.start..ms[i].whole.end])
  }

  /**
    The reference splice: from `pos` on, the unmatched text before each
    match is copied verbatim and the match is replaced by its text from
    `texts`; the tail after the last match is copied verbatim.
   */
  function Splice(line: string, ms: seq<Match>, texts: seq<string>, pos: nat): string
    requires WellFormed(line, ms) && |texts| == |ms| && pos <= |line|
    requires |ms| > 0 ==> pos <= ms[0].whole.start
    decreases |ms|
  {
    if |ms| == 0 then line[pos..]
    else line[pos..ms[0].whole.start] + texts[0] + Splice(line, ms[1..], texts[1..], ms[0].whole.end)
  }

  /** Splicing every match back in with its own text gives the line back: the gaps are the line's own text. */
  lemma {:induction false} SpliceOwnText(line: string, ms: seq<Match>, pos: nat)
    requires WellFormed(line, ms) && pos <= |line|
    requires |ms| > 0 ==> pos <= ms[0].whole.start
    ensures Splice(line, ms, MatchedTexts(line, ms), pos) == line[pos..]
    decreases |ms|
  {
    if |ms| > 0 {
      var texts := MatchedTexts(line, ms);
      var s, e := ms[0].whole.start, ms[0].whole.end;
      assert texts[1..] == MatchedTexts(line, ms[1..]);
      SpliceOwnText(line, ms[1..], e);
      assert line[pos..s] + line[s..e] + line[e..] == line[pos..];
    }
  }

  /** With no matches the line is returned unchanged. */
  lemma NoMatchNoChange(c: Config.GlobalConfig, line: string)
    ensures Splice(line, [], Replacements(c, line, []), 0) == line
  {
  }

  lemma WellFormedSuffix(line: string, ms: seq<Match>, i: nat)
    requires WellFormed(line, ms) && i <= |ms|
    ensures WellFormed(line, ms[i..])
  {
    assert forall k :: 0 <= k < |ms| - i ==> ms[i..][k] == ms[i + k];
  }

  /** One more match of the suffix from `i` on: its gap, its text, then the suffix from `i + 1`. */
  lemma SpliceUnfold(line: string, ms: seq<Match>, texts: seq<string>, i: nat, pos: nat)
    requires WellFormed(line, ms) && |texts| == |ms| && i < |ms|
    requires pos <= ms[i].whole.start
    ensures WellFormed(line, ms[i..]) && WellFormed(line, ms[i + 1..])
    ensures i + 1 < |ms| ==> ms[i].whole.end <= ms[i + 1].whole.start
    ensures Splice(line, ms[i..], texts[i..], pos)
            == line[pos..ms[i].whole.start] + texts[i] + Splice(line, ms[i + 1..], texts[i + 1..], ms[i].whole.end)
  {
    WellFormedSuffix(line, ms, i);
    WellFormedSuffix(line, ms, i + 1);
    assert ms[i..][1..] == ms[i + 1..];
    assert texts[i..][1..] == texts[i + 1..];
  }

  /** Moving one match from the pending suffix to the output keeps output-plus-pending the same. */
  lemma SpliceAdvance(line: string, ms: seq<Match>, texts: seq<string>, i: nat, pos: nat, out: string)
    requires WellFormed(line, ms) && |texts| == |ms| && i < |ms|
    requires pos <= ms[i].whole.start
    ensures WellFormed(line, ms[i..]) && WellFormed(line, ms[i + 1..])
    ensures i + 1 < |ms| ==> ms[i].whole.end <= ms[i + 1].whole.start
    ensures (out + line[pos..ms[i].whole.start] + texts[i]) + Splice(line, ms[i + 1..], texts[i + 1..], ms[i].whole.end)
            == out + Splice(line, ms[i..], texts[i..], pos)
  {
    SpliceUnfold(line, ms, texts, i, pos);
  }

  /**
    `replace_cmd` as a scan-and-splice loop: copy the text up to the next
    match, append its replacement, continue after the match, and finally
    copy the rest of the line.
   */
  method ReplaceCmd(c: Config.GlobalConfig, line: string, ms: seq<Match>) returns (out: string)
    requires WellFormed(line, ms)
    ensures out == Splice(line, ms, Replacements(c, line, ms), 0)
  {
    ghost var reps := Replacements(c, line, ms);
    out := "";
    var pos: nat := 0;
    var i := 0;
    while i < |ms|
      invariant 0 <= i <= |ms| && pos <= |line|
      invariant i < |ms| ==> pos <= ms[i].whole.start
      invariant WellFormed(line, ms[i..])
      invariant out + Splice(line, ms[i..], reps[i..], pos) == Splice(line, ms, reps, 0)
    {
      var m := ms[i];
      var r := Replacement(c, line, m);
      assert r == reps[i];
      SpliceAdvance(line, ms, reps, i, pos, out);
      out := out + line[pos..m.whole.start] + r;
      pos := m.whole.end;
      i := i + 1;
    }
    out := out + line[pos..];
  }
}
