/** Regular expressions as the sources use them. A pattern is kept as the text
    of its JavaScript literal; what it matches is supplied by an `Engine`, a
    total function returning the successive non-overlapping matches that a
    global search (`exec` loop, `matchAll`, `replace` with `/g`) visits. Every
    operation on patterns in the model is derived from the engine's spans, so
    the properties proved hold for any regular-expression semantics. */
module Regex {
  import opened Wrappers

  /** Text of a JavaScript regular-expression literal: the body between the
      slashes and the flags after them. */
  datatype Pattern = Pattern(source: string, flags: string)

  /** One match: where it starts, how many characters it covers, and the text
      of its first capture group ("" when the pattern has none). */
  datatype Span = Span(start: nat, len: nat, group: string)

  /** Spans lie inside a text of length `n`, in order, without overlapping,
      and none starts before `pos`. */
  predicate Ordered(spans: seq<Span>, n: nat, pos: nat) {
    |spans| == 0 ||
    (pos <= spans[0].start && spans[0].start + spans[0].len <= n
     && Ordered(spans[1..], n, spans[0].start + spans[0].len))
  }

  predicate WellFormed(spans: seq<Span>, s: string) {
    Ordered(spans, |s|, 0)
  }

  /** A regular-expression matcher: all matches of a pattern in a text, left to right. */
  type Engine = e: (Pattern, string) -> seq<Span> | forall p, s :: WellFormed(e(p, s), s)
    witness (p, s) => []

  /** `re.test(s)`: the pattern matches somewhere. */
  predicate Test(e: Engine, p: Pattern, s: string) {
    |e(p, s)| > 0
  }

  /** The first pattern of a list that matches, if any (`patterns.some(re => re.test(s))`). */
  predicate AnyTest(e: Engine, ps: seq<Pattern>, s: string) {
    exists i :: 0 <= i < |ps| && Test(e, ps[i], s)
  }

  /** Number of patterns of `ps` that match `s` (`patterns.filter(re => re.test(s)).length`). */
  function CountTests(e: Engine, ps: seq<Pattern>, s: string): (r: nat)
    ensures r <= |ps|
    ensures r == 0 <==> !AnyTest(e, ps, s)
  {
    if |ps| == 0 then 0
    else
      var rest := CountTests(e, ps[1..], s);
      assert forall i :: 1 <= i < |ps| ==> ps[i] == ps[1..][i - 1];
      assert AnyTest(e, ps[1..], s) ==> AnyTest(e, ps, s);
      (if Test(e, ps[0], s) then 1 else 0) + rest
  }

  /** `s.match(re)` without the global flag: the first match. */
  function FirstMatch(e: Engine, p: Pattern, s: string): (r: Option<Span>)
    ensures r.Some? <==> Test(e, p, s)
    ensures r.Some? ==> r.value.start + r.value.len <= |s|
  {
    if Test(e, p, s) then Some(e(p, s)[0]) else None
  }

  /** Text covered by a span (`match[0]`). */
  function MatchText(s: string, m: Span): string
    requires m.start + m.len <= |s|
  {
    s[m.start..m.start + m.len]
  }

  /** Texts of the spans from `pos` on, in order. */
  function TextsFrom(s: string, spans: seq<Span>, pos: nat): (r: seq<string>)
    requires Ordered(spans, |s|, pos)
    ensures |r| == |spans|
  {
    if |spans| == 0 then []
    else [MatchText(s, spans[0])] + TextsFrom(s, spans[1..], spans[0].start + spans[0].len)
  }

  /** `s.match(re)` with the global flag: the text of every match (`null`, the
      empty list here, when there is none). */
  function MatchAll(e: Engine, p: Pattern, s: string): (r: seq<string>)
    ensures |r| == |e(p, s)|
    ensures |r| > 0 <==> Test(e, p, s)
  {
    TextsFrom(s, e(p, s), 0)
  }

  /** Ordered spans, read by index: each ends inside the text and no later
      than the next one starts. */
  lemma {:induction false} OrderedIndexwise(spans: seq<Span>, n: nat, pos: nat)
    requires Ordered(spans, n, pos)
    ensures forall k :: 0 <= k < |spans| ==> pos <= spans[k].start && spans[k].start + spans[k].len <= n
    ensures forall j, k :: 0 <= j < k < |spans| ==> spans[j].start + spans[j].len <= spans[k].start
  {
    if |spans| > 0 {
      OrderedIndexwise(spans[1..], n, spans[0].start + spans[0].len);
      assert forall k :: 1 <= k < |spans| ==> spans[k] == spans[1..][k - 1];
    }
  }

  /** Total number of characters the spans cover. */
  function Covered(spans: seq<Span>): nat {
    if |spans| == 0 then 0 else spans[0].len + Covered(spans[1..])
  }

  lemma {:induction false} CoveredBound(spans: seq<Span>, n: nat, pos: nat)
    requires Ordered(spans, n, pos) && pos <= n
    ensures Covered(spans) <= n - pos
  {
    if |spans| > 0 {
      CoveredBound(spans[1..], n, spans[0].start + spans[0].len);
    }
  }

  /** Replace every span of `s` at or after `pos` by `rep`. */
  function ReplaceFrom(s: string, spans: seq<Span>, pos: nat, rep: string): (r: string)
    requires pos <= |s| && Ordered(spans, |s|, pos)
    ensures |r| == |s| - pos - Covered(spans) + |spans| * |rep|
  {
    CoveredBound(spans, |s|, pos);
    if |spans| == 0 then s[pos..]
    else
      var end := spans[0].start + spans[0].len;
      CoveredBound(spans[1..], |s|, end);
      s[pos..spans[0].start] + rep + ReplaceFrom(s, spans[1..], end, rep)
  }

  /** `s.replace(re, rep)` with the global flag. */
  function Replace(e: Engine, p: Pattern, s: string, rep: string): string {
    ReplaceFrom(s, e(p, s), 0, rep)
  }

  /** `s.replace(re, '')` with the global flag: delete every match. */
  function Remove(e: Engine, p: Pattern, s: string): (r: string)
    ensures |r| <= |s|
  {
    CoveredBound(e(p, s), |s|, 0);
    Replace(e, p, s, "")
  }

  /** Pieces of `s` between the spans, from `pos` on. */
  function PiecesFrom(s: string, spans: seq<Span>, pos: nat): (r: seq<string>)
    requires pos <= |s| && Ordered(spans, |s|, pos)
    ensures |r| == |spans| + 1
  {
    if |spans| == 0 then [s[pos..]]
    else
      var end := spans[0].start + spans[0].len;
      [s[pos..spans[0].start]] + PiecesFrom(s, spans[1..], end)
  }

  /** `s.split(re)` for a pattern without capture groups. */
  function SplitBy(e: Engine, p: Pattern, s: string): seq<string> {
    PiecesFrom(s, e(p, s), 0)
  }

  /** `s.search(re)` / `match.index`: start of the first match, or -1. */
  function Search(e: Engine, p: Pattern, s: string): (r: int)
    ensures -1 <= r <= |s|
    ensures r == -1 <==> !Test(e, p, s)
  {
    if Test(e, p, s) then e(p, s)[0].start else -1
  }

  /** Removing the matches of a pattern shortens the text by exactly the
      characters they cover, so the text is unchanged exactly when every match
      is empty (in particular when there is none). */
  lemma RemoveLength(e: Engine, p: Pattern, s: string)
    ensures |Remove(e, p, s)| == |s| - Covered(e(p, s))
    ensures !Test(e, p, s) ==> Remove(e, p, s) == s
  {
  }

  /** Removing the matches of several patterns in turn (`patterns.forEach(re => t = t.replace(re, ''))`). */
  function RemoveAll(e: Engine, ps: seq<Pattern>, s: string): (r: string)
    ensures |r| <= |s|
  {
    if |ps| == 0 then s else RemoveAll(e, ps[1..], Remove(e, ps[0], s))
  }

  /** Sum of the lengths of all matches of every pattern in the text
      (`(s.match(re) || []).join('').length`, summed). */
  function CoveredByAll(e: Engine, ps: seq<Pattern>, s: string): nat {
    if |ps| == 0 then 0 else Covered(e(ps[0], s)) + CoveredByAll(e, ps[1..], s)
  }
}
