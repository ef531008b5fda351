/** Boundary segmenter and classifier for the transcript of a judicial case
    file (js/document_detector.js). Every line is scored as a possible start
    of a new document; a break opens a new segment, each segment is
    classified when it opens, and post-processing drops tiny segments,
    re-classifies doubtful ones by their neighbour and numbers the rest.
    Metadata extraction is not part of this model. */
module DocumentDetector {
  import opened Wrappers
  import opened Regex
  import opened Seqs
  import opened Strings
  import CaseMap

  /** A kind of procedural document: its name, its recognising patterns, and
      the weight each matching pattern adds to its score. */
  datatype DocType = DocType(name: string, patterns: seq<Pattern>, weight: nat)

  /** The kinds in declaration order, which is the order they are tried in. */
  const DocumentTypes: seq<DocType> := [
    DocType("PETIÇÃO INICIAL", [
      Pattern("EXCELENT[ÍI]SSIMO\\s+SENHOR\\s+DOUTOR\\s+JU[ÍI]Z", "i"),
      Pattern("EXMO\\.?\\s+SR\\.?\\s+DR\\.?\\s+JU[ÍI]Z", "i"),
      Pattern("PETI[ÇC][ÃA]O\\s+INICIAL", "i"),
      Pattern("V[EÊ]M\\s+PERANTE\\s+VOSSA\\s+EXCEL[EÊ]NCIA", "i")], 10),
    DocType("CONTESTAÇÃO", [
      Pattern("CONTESTA[ÇC][ÃA]O", "i"),
      Pattern("V[EÊ]M\\s+CONTESTAR\\s+A\\s+A[ÇC][ÃA]O", "i"),
      Pattern("DEFESA", "i")], 8),
    DocType("RÉPLICA", [
      Pattern("R[ÉE]PLICA", "i"),
      Pattern("IMPUGNA[ÇC][ÃA]O\\s+[ÀA]\\s+CONTESTA[ÇC][ÃA]O", "i")], 8),
    DocType("SENTENÇA", [
      Pattern("SENTEN[ÇC]A", "i"),
      Pattern("VISTOS\\s+ETC\\.?", "i"),
      Pattern("JULGO\\s+PROCEDENTE", "i"),
      Pattern("JULGO\\s+IMPROCEDENTE", "i"),
      Pattern("HOMOLOGO\\s+O\\s+ACORDO", "i")], 9),
    DocType("DECISÃO", [
      Pattern("DECIS[ÃA]O\\s+INTERLOCUT[ÓO]RIA", "i"),
      Pattern("DEFIRO", "i"),
      Pattern("INDEFIRO", "i"),
      Pattern("DECIS[ÃA]O", "i")], 7),
    DocType("DESPACHO", [
      Pattern("DESPACHO", "i"),
      Pattern("CITE-SE", "i"),
      Pattern("INTIME-SE", "i"),
      Pattern("MANIFESTE-SE", "i"),
      Pattern("CUMPRA-SE", "i")], 6),
    DocType("ACÓRDÃO", [
      Pattern("AC[ÓO]RD[ÃA]O", "i"),
      Pattern("TRIBUNAL\\s+DE\\s+JUSTI[ÇC]A", "i"),
      Pattern("RELATOR(?:A)?:\\s*(?:DES|MIN)", "i"),
      Pattern("VOTO", "i")], 9),
    DocType("CERTIDÃO", [
      Pattern("CERTID[ÃA]O", "i"),
      Pattern("CERTIFICO\\s+QUE", "i")], 5),
    DocType("AR", [
      Pattern("AVISO\\s+DE\\s+RECEBIMENTO", "i"),
      Pattern("AR\\s+DIGITAL", "i"),
      Pattern("CITADO\\s+EM", "i"),
      Pattern("DATA\\s+DO\\s+RECEBIMENTO", "i")], 7),
    DocType("MANDADO", [
      Pattern("MANDADO\\s+DE", "i"),
      Pattern("OFICIAL\\s+DE\\s+JUSTI[ÇC]A", "i"),
      Pattern("CUMPRA-SE\\s+O\\s+PRESENTE\\s+MANDADO", "i")], 7)
  ]

  /** A pattern whose match in a line and its lookahead suggests a new document. */
  datatype BreakPattern = BreakPattern(key: string, regex: Pattern, weight: nat)

  const BreakPatterns: seq<BreakPattern> := [
    BreakPattern("formal_header", Pattern("^(EXCELENT[ÍI]SSIMO|EXMO\\.?|ILUSTR[ÍI]SSIMO|ILMO\\.?)\\s+(SENHOR|SR\\.?)", "i"), 10),
    BreakPattern("document_title", Pattern("^(PETI[ÇC][ÃA]O|CONTESTA[ÇC][ÃA]O|SENTEN[ÇC]A|DECIS[ÃA]O|DESPACHO|AC[ÓO]RD[ÃA]O|R[ÉE]PLICA|CERTID[ÃA]O|MANDADO)", "i"), 9),
    BreakPattern("tribunal_header", Pattern("^(PODER\\s+JUDICI[ÁA]RIO|JUSTI[ÇC]A\\s+(FEDERAL|ESTADUAL)|TRIBUNAL\\s+DE\\s+JUSTI[ÇC]A)", "i"), 8),
    BreakPattern("signature_new_date", Pattern("Assinado\\s+(digitalmente|eletronicamente).*?\\n.*?(\\d{2}\\/\\d{2}\\/\\d{4})", "is"), 7),
    BreakPattern("process_number", Pattern("^(Processo|Autos|N[úu]mero)[\\s:]+\\d{7}-?\\d{2}\\.\\d{4}\\.\\d{1}\\.\\d{2}\\.\\d{4}", "i"), 8),
    BreakPattern("lawyer_change", Pattern("OAB\\/[A-Z]{2}\\s+\\d+", "i"), 5)
  ]

  /** A break needs a score above this... */
  const BreakThreshold: nat := 15
  /** ...and an open segment of more than this many lines. */
  const MinSegmentLines: nat := 10
  /** The rolling buffer keeps at most this many of the latest lines. */
  const BufferLimit: nat := 20
  /** Number of raw lines after the current one used as lookahead. */
  const Lookahead: nat := 4

  // ---------------------------------------------------------------- break score

  function WeightSum(ps: seq<BreakPattern>): nat {
    if |ps| == 0 then 0 else ps[0].weight + WeightSum(ps[1..])
  }

  /** Sum of the weights of the patterns of `ps` that match `ctx`. */
  function PatternScoreOf(e: Engine, ps: seq<BreakPattern>, ctx: string): (r: nat)
    ensures r <= WeightSum(ps)
    ensures r > 0 ==> exists i :: 0 <= i < |ps| && Test(e, ps[i].regex, ctx)
  {
    if |ps| == 0 then 0
    else
      var rest := PatternScoreOf(e, ps[1..], ctx);
      assert forall i :: 0 <= i < |ps[1..]| ==> ps[1..][i] == ps[i + 1];
      (if Test(e, ps[0].regex, ctx) then ps[0].weight else 0) + rest
  }

  /** Score of the break patterns alone: at most 10 + 9 + 8 + 7 + 8 + 5. */
  function PatternScore(e: Engine, ctx: string): (r: nat)
    ensures r <= 47
  {
    PatternScoreOf(e, BreakPatterns, ctx)
  }

  predicate TitleChar(c: char) {
    ('A' <= c <= 'Z') || ('\U{C0}' <= c <= '\U{FF}') || IsJsSpace(c)
  }

  /** A line longer than five characters, unchanged by upper-casing and made
      only of capitals, Latin-1 letters and spaces: a probable title. */
  predicate IsTitleLine(line: string) {
    |line| > 5 && line == CaseMap.ToUpper(line)
    && forall i :: 0 <= i < |line| ==> TitleChar(line[i])
  }

  function TotalLength(ls: seq<string>): nat {
    if |ls| == 0 then 0 else |ls[0]| + TotalLength(ls[1..])
  }

  function MeanLength(ls: seq<string>): real
    requires |ls| > 0
  {
    TotalLength(ls) as real / |ls| as real
  }

  /** A short line after more than five buffered lines averaging over 100 characters. */
  predicate ShortAfterLong(line: string, buffer: seq<string>) {
    |line| < 50 && |buffer| > 5 && MeanLength(buffer) > 100.0
  }

  /** The mean line length differs by more than 50 between at least five lines
      before and at least three lines after. */
  predicate StyleChange(before: seq<string>, after: seq<string>) {
    |before| >= 5 && |after| >= 3 && RAbs(MeanLength(before) - MeanLength(after)) > 50.0
  }

  /** The current line followed by the first three lookahead lines. */
  function AfterLines(line: string, next: string): seq<string> {
    [line] + Take(Split(next, '\n'), 3)
  }

  /** Break score of a trimmed line, given the raw lookahead text and the
      buffer of preceding lines of the open segment. */
  function BreakScore(e: Engine, line: string, next: string, buffer: seq<string>): (r: nat)
    ensures PatternScore(e, line + "\n" + next) <= r <= 59
    ensures |buffer| < 5 ==> r <= PatternScore(e, line + "\n" + next) + 5
    ensures |buffer| == 5 ==> r <= PatternScore(e, line + "\n" + next) + 9
  {
    PatternScore(e, line + "\n" + next)
    + (if IsTitleLine(line) then 5 else 0)
    + (if ShortAfterLong(line, buffer) then 3 else 0)
    + (if StyleChange(buffer, AfterLines(line, next)) then 4 else 0)
  }

  // ------------------------------------------------------------ classification

  datatype Classification = Classification(kind: string, confidence: real)

  /** The incumbent before any kind has been tried. */
  const Unclassified := Classification("DOCUMENTO", 0.3)

  /** Score of one kind: its weight times the number of its patterns that match. */
  function Hits(e: Engine, t: DocType, ctx: string): nat {
    CountTests(e, t.patterns, ctx) * t.weight
  }

  /** Confidence given to a kind that takes over: its score over 10, at most 1. */
  function Conf(h: nat): real {
    RMin(h as real / 10.0, 1.0)
  }

  /** The incumbent after trying the first `k` kinds in order: a kind replaces
      the incumbent only when its score exceeds ten times the incumbent's
      confidence. */
  function ClassifyPrefix(e: Engine, ctx: string, k: nat): Classification
    requires k <= |DocumentTypes|
  {
    if k == 0 then Unclassified
    else
      var best := ClassifyPrefix(e, ctx, k - 1);
      var h := Hits(e, DocumentTypes[k - 1], ctx);
      if h as real > best.confidence * 10.0 then Classification(DocumentTypes[k - 1].name, Conf(h))
      else best
  }

  function ClassifyDocumentType(e: Engine, firstLine: string, context: string): Classification {
    ClassifyPrefix(e, firstLine + "\n" + context, |DocumentTypes|)
  }

  /** Scores of all kinds, in declaration order. */
  function HitList(e: Engine, ctx: string): (hs: seq<nat>)
    ensures |hs| == |DocumentTypes|
    ensures forall i :: 0 <= i < |hs| ==> hs[i] == Hits(e, DocumentTypes[i], ctx)
  {
    seq(|DocumentTypes|, i requires 0 <= i < |DocumentTypes| => Hits(e, DocumentTypes[i], ctx))
  }

  /** Kind `w` beats 3 and every earlier kind's score capped at 10. */
  predicate Displaces(hs: seq<nat>, w: nat)
    requires w < |hs|
  {
    hs[w] > 3 && forall i :: 0 <= i < w ==> hs[w] > Min(hs[i], 10)
  }

  /** The last kind among the first `k` that displaces, if any. */
  function LastDisplacer(hs: seq<nat>, k: nat): (r: Option<nat>)
    requires k <= |hs|
    ensures r.Some? ==> r.value < k && Displaces(hs, r.value)
    ensures r.Some? ==> forall j :: r.value < j < k ==> !Displaces(hs, j)
    ensures r.None? ==> forall j :: 0 <= j < k ==> !Displaces(hs, j)
  {
    if k == 0 then None
    else if Displaces(hs, k - 1) then Some(k - 1)
    else LastDisplacer(hs, k - 1)
  }

  /** Ten times the incumbent's confidence after the first `k` kinds: 3, or
      the largest earlier score capped at 10. */
  function CappedBest(hs: seq<nat>, k: nat): (r: nat)
    requires k <= |hs|
    ensures 3 <= r <= 10
    ensures forall i :: 0 <= i < k ==> Min(hs[i], 10) <= r
  {
    if k == 0 then 3 else Max(CappedBest(hs, k - 1), Min(hs[k - 1], 10))
  }

  lemma {:induction false} DisplacesIff(hs: seq<nat>, w: nat)
    requires w < |hs|
    ensures Displaces(hs, w) <==> hs[w] > CappedBest(hs, w)
    decreases w
  {
    if w > 0 {
      var pre := hs[..w - 1] + [hs[w]];
      DisplacesIffAux(hs, w, w);
    }
  }

  lemma {:induction false} DisplacesIffAux(hs: seq<nat>, w: nat, k: nat)
    requires k <= w < |hs|
    ensures (hs[w] > 3 && forall i :: 0 <= i < k ==> hs[w] > Min(hs[i], 10)) <==> hs[w] > CappedBest(hs, k)
    decreases k
  {
    if k > 0 {
      DisplacesIffAux(hs, w, k - 1);
    }
  }

  lemma {:induction false} ClassifyPrefixInv(e: Engine, ctx: string, k: nat)
    requires k <= |DocumentTypes|
    ensures var hs := HitList(e, ctx);
      var r := ClassifyPrefix(e, ctx, k);
      && r.confidence * 10.0 == CappedBest(hs, k) as real
      && r == (match LastDisplacer(hs, k)
               case None => Unclassified
               case Some(w) => Classification(DocumentTypes[w].name, Conf(hs[w])))
  {
    var hs := HitList(e, ctx);
    if k > 0 {
      ClassifyPrefixInv(e, ctx, k - 1);
      DisplacesIff(hs, k - 1);
    }
  }

  /** The classifier's incumbent-replacement loop picks the LAST kind whose
      score beats both 3 and every earlier kind's score capped at 10, with
      confidence min(score/10, 1); when there is none the result stays
      ("DOCUMENTO", 0.3). */
  lemma {:induction false} ClassifyReference(e: Engine, firstLine: string, context: string)
    ensures var hs := HitList(e, firstLine + "\n" + context);
      var r := ClassifyDocumentType(e, firstLine, context);
      && (r == Unclassified <==> forall w :: 0 <= w < |hs| ==> !Displaces(hs, w))
      && forall w :: 0 <= w < |hs| && Displaces(hs, w) && (forall j :: w < j < |hs| ==> !Displaces(hs, j))
           ==> r == Classification(DocumentTypes[w].name, Conf(hs[w]))
  {
    var ctx := firstLine + "\n" + context;
    var hs := HitList(e, ctx);
    ClassifyPrefixInv(e, ctx, |DocumentTypes|);
    var ld := LastDisplacer(hs, |hs|);
    if ld.Some? {
      assert Conf(hs[ld.value]) >= 0.4;
    }
  }

  /** Every kind's weight is between 5 and 10, so a non-zero score is at least 5. */
  lemma {:induction false} HitsRange(e: Engine, ctx: string, i: nat)
    requires i < |DocumentTypes|
    ensures Hits(e, DocumentTypes[i], ctx) == 0 || Hits(e, DocumentTypes[i], ctx) >= 5
  {
  }

  /** The confidence of a classification is 0.3 (nothing matched) or in [0.5, 1]. */
  lemma {:induction false} ClassifyConfidenceRange(e: Engine, firstLine: string, context: string)
    ensures var r := ClassifyDocumentType(e, firstLine, context);
      r == Unclassified || 0.5 <= r.confidence <= 1.0
  {
    var ctx := firstLine + "\n" + context;
    var hs := HitList(e, ctx);
    ClassifyReference(e, firstLine, context);
    var ld := LastDisplacer(hs, |hs|);
    if ld.Some? {
      HitsRange(e, ctx, ld.value);
    }
  }

  /** A kind scoring above 10 always displaces the incumbent, however high the
      earlier scores were, so the winner is never declared before it. */
  lemma {:induction false} StrongLaterKindWins(e: Engine, firstLine: string, context: string, j: nat)
    requires j < |DocumentTypes|
    requires Hits(e, DocumentTypes[j], firstLine + "\n" + context) > 10
    ensures var r := ClassifyDocumentType(e, firstLine, context);
      exists w :: j <= w < |DocumentTypes| && r == Classification(DocumentTypes[w].name, Conf(HitList(e, firstLine + "\n" + context)[w]))
  {
    var ctx := firstLine + "\n" + context;
    var hs := HitList(e, ctx);
    ClassifyReference(e, firstLine, context);
    assert Displaces(hs, j);
    var ld := LastDisplacer(hs, |hs|);
    assert ld.Some? && ld.value >= j;
  }

  // ------------------------------------------------------------------ the scan

  /** The two judgements the line loop relies on: the break score of a trimmed
      line given its lookahead and the buffer, and the classification of a
      segment from its first line and lookahead. The loop's properties hold
      whatever these are; `Heuristics` supplies the ones above. */
  datatype Judge = Judge(score: (string, string, seq<string>) -> nat, classify: (string, string) -> Classification)

  function Heuristics(e: Engine): Judge {
    Judge((line, next, buffer) => BreakScore(e, line, next, buffer),
          (line, next) => ClassifyDocumentType(e, line, next))
  }

  /** A detected piece of the transcript. */
  datatype Segment = Segment(kind: string, confidence: real, startLine: nat, text: string, lineCount: nat)

  /** Loop state of `detectDocuments`: the closed segments, the open one, the
      lines of the open run and the rolling buffer. */
  datatype ScanState = ScanState(docs: seq<Segment>, current: Option<Segment>, currentLines: seq<string>, buffer: seq<string>)

  const Initial := ScanState([], None, [], [])

  /** Every line trimmed. */
  function Trimmed(lines: seq<string>): (r: seq<string>)
    ensures |r| == |lines|
  {
    if |lines| == 0 then [] else [TrimJs(lines[0])] + Trimmed(lines[1..])
  }

  lemma {:induction false} TrimmedAt(lines: seq<string>, i: nat)
    requires i < |lines|
    ensures Trimmed(lines)[i] == TrimJs(lines[i])
  {
    if i > 0 {
      TrimmedAt(lines[1..], i - 1);
    }
  }

  /** The raw lines after line `i`, at most four, joined by newlines. */
  function NextLines(lines: seq<string>, i: nat): string
    requires i < |lines|
  {
    Join(lines[i + 1..Min(i + 1 + Lookahead, |lines|)], "\n")
  }

  /** The lookahead text of every line. */
  function Lookaheads(lines: seq<string>): (r: seq<string>)
    ensures |r| == |lines|
    ensures forall i :: 0 <= i < |lines| ==> r[i] == NextLines(lines, i)
  {
    seq(|lines|, i requires 0 <= i < |lines| => NextLines(lines, i))
  }

  function Close(seg: Segment, segLines: seq<string>): Segment {
    seg.(text := Join(segLines, "\n"), lineCount := |segLines|)
  }

  /** A segment opened at line `s`, classified from its first line and lookahead.
      `t` holds the trimmed lines and `nx` their lookahead texts. */
  function Open(j: Judge, t: seq<string>, nx: seq<string>, s: nat): Segment
    requires s < |t| == |nx|
  {
    var c := j.classify(t[s], nx[s]);
    Segment(c.kind, c.confidence, s, "", 0)
  }

  /** Line `i` closes the current run: a high break score after more than ten lines. */
  predicate StepBreaks(j: Judge, t: seq<string>, nx: seq<string>, i: nat, st: ScanState)
    requires i < |t| == |nx|
  {
    j.score(t[i], nx[i], st.buffer) > BreakThreshold && |st.currentLines| > MinSegmentLines
  }

  /** Line `i` joins the current run; the buffer keeps its last twenty lines. */
  function JoinLine(t: seq<string>, i: nat, st: ScanState): (r: ScanState)
    requires i < |t|
    ensures |st.buffer| <= BufferLimit ==> |r.buffer| <= BufferLimit
    ensures r.docs == st.docs && r.current == st.current && r.currentLines == st.currentLines + [t[i]]
  {
    var b := st.buffer + [t[i]];
    ScanState(st.docs, st.current, st.currentLines + [t[i]], if |b| > BufferLimit then b[1..] else b)
  }

  /** Line `i` opens a new segment; the open one, if any, is closed and kept. */
  function BreakLine(j: Judge, t: seq<string>, nx: seq<string>, i: nat, st: ScanState): (r: ScanState)
    requires i < |t| == |nx|
    ensures r.buffer == [] && r.currentLines == [t[i]] && r.current == Some(Open(j, t, nx, i))
    ensures r.docs == st.docs || (st.current.Some? && r.docs == st.docs + [Close(st.current.value, st.currentLines)])
  {
    var docs := if st.current.Some? then st.docs + [Close(st.current.value, st.currentLines)] else st.docs;
    ScanState(docs, Some(Open(j, t, nx, i)), [t[i]], [])
  }

  /** One iteration of the line loop, at line `i`. */
  function Step(j: Judge, t: seq<string>, nx: seq<string>, i: nat, st: ScanState): (r: ScanState)
    requires i < |t| == |nx|
    ensures |st.buffer| <= BufferLimit ==> |r.buffer| <= BufferLimit
    ensures r.current != st.current ==> r.buffer == [] && r.currentLines == [t[i]]
  {
    if StepBreaks(j, t, nx, i, st) then BreakLine(j, t, nx, i, st) else JoinLine(t, i, st)
  }

  function ScanFrom(j: Judge, t: seq<string>, nx: seq<string>, i: nat, st: ScanState): ScanState
    requires i <= |t| == |nx|
    decreases |t| - i
  {
    if i == |t| then st else ScanFrom(j, t, nx, i + 1, Step(j, t, nx, i, st))
  }

  /** The segments of the line loop, before post-processing. */
  function ScanSegments(j: Judge, fullText: string): seq<Segment> {
    var lines := Split(fullText, '\n');
    var st := ScanFrom(j, Trimmed(lines), Lookaheads(lines), 0, Initial);
    var docs := if st.current.Some? && |st.currentLines| > 0
      then st.docs + [Close(st.current.value, st.currentLines)] else st.docs;
    if |docs| == 0 then [Segment("DOCUMENTO ÚNICO", 0.5, 0, fullText, |lines|)] else docs
  }

  function DetectSegments(e: Engine, fullText: string): seq<Segment> {
    ScanSegments(Heuristics(e), fullText)
  }

  // ------------------------------------------------- declarative segmentation

  /** Line `k` breaks the run of lines that started at line `from`, whose
      buffer holds the lines from `bufFrom` on (at most the last twenty). */
  predicate BreaksAt(j: Judge, t: seq<string>, nx: seq<string>, from: nat, bufFrom: nat, k: nat)
    requires from <= k < |t| == |nx| && bufFrom <= k
  {
    k - from > MinSegmentLines
    && j.score(t[k], nx[k], t[Max(bufFrom, k - BufferLimit)..k]) > BreakThreshold
  }

  /** The first line at or after `k` that opens the first segment. */
  function FirstBreakFrom(j: Judge, t: seq<string>, nx: seq<string>, k: nat): (r: Option<nat>)
    requires k <= |t| == |nx|
    ensures r.Some? ==> k <= r.value < |t| && BreaksAt(j, t, nx, 0, 0, r.value)
    decreases |t| - k
  {
    if k == |t| then None
    else if BreaksAt(j, t, nx, 0, 0, k) then Some(k)
    else FirstBreakFrom(j, t, nx, k + 1)
  }

  /** The first line at or after `k` that closes the segment opened at `s`,
      or the number of lines when none does. */
  function NextBreakFrom(j: Judge, t: seq<string>, nx: seq<string>, s: nat, k: nat): (r: nat)
    requires s < k <= |t| == |nx|
    ensures k <= r <= |t|
    ensures r < |t| ==> BreaksAt(j, t, nx, s, s + 1, r)
    decreases |t| - k
  {
    if k == |t| then |t|
    else if BreaksAt(j, t, nx, s, s + 1, k) then k
    else NextBreakFrom(j, t, nx, s, k + 1)
  }

  /** The segment covering lines [s, e). */
  function SegmentOf(j: Judge, t: seq<string>, nx: seq<string>, s: nat, e: nat): Segment
    requires s < e <= |t| == |nx|
  {
    Close(Open(j, t, nx, s), t[s..e])
  }

  /** The segments from the one opened at line `s` to the end. */
  function SegmentsFrom(j: Judge, t: seq<string>, nx: seq<string>, s: nat): seq<Segment>
    requires s < |t| == |nx|
    decreases |t| - s
  {
    var e := NextBreakFrom(j, t, nx, s, s + 1);
    [SegmentOf(j, t, nx, s, e)] + (if e < |t| then SegmentsFrom(j, t, nx, e) else [])
  }

  /** Segmentation stated without the loop: no break at all gives one
      "DOCUMENTO ÚNICO"; otherwise the segments run from the first break to
      the end, each closed by the next break of its own run. */
  function ReferenceSegments(j: Judge, fullText: string): seq<Segment> {
    var lines := Split(fullText, '\n');
    var t := Trimmed(lines);
    var nx := Lookaheads(lines);
    match FirstBreakFrom(j, t, nx, 0)
    case None => [Segment("DOCUMENTO ÚNICO", 0.5, 0, fullText, |lines|)]
    case Some(f) => SegmentsFrom(j, t, nx, f)
  }

  /** The current lines and the buffer of a run that started at line `s`,
      at line `i`: the buffer never reaches back to the run's first line. */
  predicate Window(t: seq<string>, i: nat, st: ScanState, s: nat)
    requires i <= |t|
  {
    s < i && st.currentLines == t[s..i] && st.buffer == t[Max(s + 1, i - BufferLimit)..i]
  }

  /** The documents already closed, followed by the runs still to come from
      the one open at `s`, are all the runs from the first break. */
  predicate Plan(j: Judge, t: seq<string>, nx: seq<string>, i: nat, st: ScanState, s: nat)
    requires s < i <= |t| == |nx|
  {
    && st.current == Some(Open(j, t, nx, s))
    && NextBreakFrom(j, t, nx, s, s + 1) == NextBreakFrom(j, t, nx, s, i)
    && FirstBreakFrom(j, t, nx, 0).Some?
    && st.docs + SegmentsFrom(j, t, nx, s) == SegmentsFrom(j, t, nx, FirstBreakFrom(j, t, nx, 0).value)
  }

  /** Loop invariant while no segment is open. */
  predicate NoneOpenInv(j: Judge, t: seq<string>, nx: seq<string>, i: nat, st: ScanState)
    requires i <= |t| == |nx|
  {
    && st.current.None? && st.docs == [] && st.currentLines == t[..i]
    && st.buffer == t[Max(0, i - BufferLimit)..i]
    && FirstBreakFrom(j, t, nx, 0) == FirstBreakFrom(j, t, nx, i)
  }

  /** Loop invariant once a segment, opened at line `s`, is open. */
  predicate OpenInv(j: Judge, t: seq<string>, nx: seq<string>, i: nat, st: ScanState, s: nat)
    requires i <= |t| == |nx|
  {
    Window(t, i, st, s) && Plan(j, t, nx, i, st, s)
  }

  predicate ScanInv(j: Judge, t: seq<string>, nx: seq<string>, i: nat, st: ScanState)
    requires i <= |t| == |nx|
  {
    NoneOpenInv(j, t, nx, i, st) || (st.current.Some? && OpenInv(j, t, nx, i, st, st.current.value.startLine))
  }

  lemma {:induction false} BufferShift(t: seq<string>, b: nat, i: nat)
    requires b <= i < |t|
    ensures var buf := t[Max(b, i - BufferLimit)..i] + [t[i]];
      (if |buf| > BufferLimit then buf[1..] else buf) == t[Max(b, i + 1 - BufferLimit)..i + 1]
  {
    var lo := Max(b, i - BufferLimit);
    var buf := t[lo..i] + [t[i]];
    assert buf == t[lo..i + 1];
    if |buf| > BufferLimit {
      assert lo == i - BufferLimit;
      assert buf[1..] == t[lo + 1..i + 1];
    }
  }

  /** Inside a run, the loop's break test is the declarative one. */
  lemma {:induction false} StepBreaksAt(j: Judge, t: seq<string>, nx: seq<string>, i: nat, st: ScanState, s: nat)
    requires i < |t| == |nx| && Window(t, i, st, s)
    ensures StepBreaks(j, t, nx, i, st) <==> BreaksAt(j, t, nx, s, s + 1, i)
  {
  }

  lemma {:induction false} WindowJoin(t: seq<string>, i: nat, st: ScanState, s: nat)
    requires i < |t| && Window(t, i, st, s)
    ensures Window(t, i + 1, JoinLine(t, i, st), s)
  {
    var r := JoinLine(t, i, st);
    BufferShift(t, s + 1, i);
    assert r.buffer == t[Max(s + 1, i + 1 - BufferLimit)..i + 1];
    assert r.currentLines == t[s..i] + [t[i]];
    assert t[s..i] + [t[i]] == t[s..i + 1];
  }

  lemma {:induction false} StepNoneOpen(j: Judge, t: seq<string>, nx: seq<string>, i: nat, st: ScanState)
    requires i < |t| == |nx| && NoneOpenInv(j, t, nx, i, st)
    ensures ScanInv(j, t, nx, i + 1, Step(j, t, nx, i, st))
  {
    var r := Step(j, t, nx, i, st);
    if BreaksAt(j, t, nx, 0, 0, i) {
      assert FirstBreakFrom(j, t, nx, i) == Some(i);
      assert r.currentLines == t[i..i + 1];
      assert OpenInv(j, t, nx, i + 1, r, i);
    } else {
      BufferShift(t, 0, i);
      assert t[..i] + [t[i]] == t[..i + 1];
      assert NoneOpenInv(j, t, nx, i + 1, r);
    }
  }

  /** A run opened at `s` that breaks at `i` is followed by the runs from `i`. */
  lemma {:induction false} SegmentsFromBreak(j: Judge, t: seq<string>, nx: seq<string>, s: nat, i: nat)
    requires s < i < |t| == |nx|
    requires NextBreakFrom(j, t, nx, s, s + 1) == NextBreakFrom(j, t, nx, s, i)
    requires BreaksAt(j, t, nx, s, s + 1, i)
    ensures SegmentsFrom(j, t, nx, s) == [SegmentOf(j, t, nx, s, i)] + SegmentsFrom(j, t, nx, i)
  {
    assert NextBreakFrom(j, t, nx, s, i) == i;
  }

  /** The run open at `s` closed at line `i` is the declarative segment. */
  lemma {:induction false} CloseOpen(j: Judge, t: seq<string>, nx: seq<string>, i: nat, st: ScanState, s: nat)
    requires s < i < |t| == |nx| && st.current == Some(Open(j, t, nx, s)) && st.currentLines == t[s..i]
    ensures Close(st.current.value, st.currentLines) == SegmentOf(j, t, nx, s, i)
  {
  }

  lemma {:induction false} PlanBreak(j: Judge, t: seq<string>, nx: seq<string>, i: nat, st: ScanState, s: nat)
    requires s < i < |t| == |nx| && Plan(j, t, nx, i, st, s) && BreaksAt(j, t, nx, s, s + 1, i)
    ensures Plan(j, t, nx, i + 1, ScanState(st.docs + [SegmentOf(j, t, nx, s, i)], Some(Open(j, t, nx, i)), [t[i]], []), i)
  {
    var seg := SegmentOf(j, t, nx, s, i);
    SegmentsFromBreak(j, t, nx, s, i);
    var rest := SegmentsFrom(j, t, nx, i);
    assert (st.docs + [seg]) + rest == st.docs + ([seg] + rest);
  }

  /** A break at line `i` closes the open segment and opens the next one. */
  lemma {:induction false} StepOpenBreak(j: Judge, t: seq<string>, nx: seq<string>, i: nat, st: ScanState, s: nat)
    requires i < |t| == |nx| && OpenInv(j, t, nx, i, st, s) && BreaksAt(j, t, nx, s, s + 1, i)
    ensures OpenInv(j, t, nx, i + 1, BreakLine(j, t, nx, i, st), i)
  {
    var r := BreakLine(j, t, nx, i, st);
    CloseOpen(j, t, nx, i, st, s);
    PlanBreak(j, t, nx, i, st, s);
    assert r == ScanState(st.docs + [SegmentOf(j, t, nx, s, i)], Some(Open(j, t, nx, i)), [t[i]], []);
    assert r.currentLines == t[i..i + 1];
  }

  /** Without a break, line `i` joins the open segment. */
  lemma {:induction false} StepOpenJoin(j: Judge, t: seq<string>, nx: seq<string>, i: nat, st: ScanState, s: nat)
    requires i < |t| == |nx| && OpenInv(j, t, nx, i, st, s) && !BreaksAt(j, t, nx, s, s + 1, i)
    ensures OpenInv(j, t, nx, i + 1, JoinLine(t, i, st), s)
  {
    assert NextBreakFrom(j, t, nx, s, i) == NextBreakFrom(j, t, nx, s, i + 1);
    WindowJoin(t, i, st, s);
  }

  lemma {:induction false} StepOpen(j: Judge, t: seq<string>, nx: seq<string>, i: nat, st: ScanState, s: nat)
    requires i < |t| == |nx| && OpenInv(j, t, nx, i, st, s)
    ensures ScanInv(j, t, nx, i + 1, Step(j, t, nx, i, st))
  {
    StepBreaksAt(j, t, nx, i, st, s);
    if BreaksAt(j, t, nx, s, s + 1, i) {
      StepOpenBreak(j, t, nx, i, st, s);
    } else {
      StepOpenJoin(j, t, nx, i, st, s);
    }
  }

  lemma {:induction false} ScanFromInv(j: Judge, t: seq<string>, nx: seq<string>, i: nat, st: ScanState)
    requires i <= |t| == |nx| && ScanInv(j, t, nx, i, st)
    ensures ScanInv(j, t, nx, |t|, ScanFrom(j, t, nx, i, st))
    decreases |t| - i
  {
    if i < |t| {
      if NoneOpenInv(j, t, nx, i, st) {
        StepNoneOpen(j, t, nx, i, st);
      } else {
        StepOpen(j, t, nx, i, st, st.current.value.startLine);
      }
      ScanFromInv(j, t, nx, i + 1, Step(j, t, nx, i, st));
    }
  }

  /** The line loop with its 20-line rolling buffer computes exactly the
      declarative segmentation. */
  lemma {:induction false} ScanReference(j: Judge, fullText: string)
    ensures ScanSegments(j, fullText) == ReferenceSegments(j, fullText)
  {
    var lines := Split(fullText, '\n');
    var t := Trimmed(lines);
    var nx := Lookaheads(lines);
    assert NoneOpenInv(j, t, nx, 0, Initial);
    ScanFromInv(j, t, nx, 0, Initial);
    var st := ScanFrom(j, t, nx, 0, Initial);
    if st.current.Some? {
      var s := st.current.value.startLine;
      assert OpenInv(j, t, nx, |t|, st, s);
      assert NextBreakFrom(j, t, nx, s, s + 1) == |t|;
      assert SegmentsFrom(j, t, nx, s) == [SegmentOf(j, t, nx, s, |t|)];
    } else {
      assert NoneOpenInv(j, t, nx, |t|, st);
    }
  }

  // ----------------------------------------------------- shape of the segments

  /** `docs` cover lines [from, to) of `t` as consecutive runs; every run but
      the last has more than ten lines, and each holds the lines it covers. */
  predicate Tiles(t: seq<string>, docs: seq<Segment>, from: nat, to: nat)
    requires to <= |t|
    decreases |docs|
  {
    if |docs| == 0 then from == to
    else
      var d := docs[0];
      && d.startLine == from && d.lineCount >= 1 && from + d.lineCount <= to
      && d.text == Join(t[from..from + d.lineCount], "\n")
      && (|docs| > 1 ==> d.lineCount > MinSegmentLines)
      && Tiles(t, docs[1..], from + d.lineCount, to)
  }

  lemma {:induction false} TilesCons(t: seq<string>, d: Segment, rest: seq<Segment>, from: nat, to: nat)
    requires to <= |t|
    requires d.startLine == from && d.lineCount >= 1 && from + d.lineCount <= to
    requires d.text == Join(t[from..from + d.lineCount], "\n")
    requires |rest| > 0 ==> d.lineCount > MinSegmentLines
    requires Tiles(t, rest, from + d.lineCount, to)
    ensures Tiles(t, [d] + rest, from, to)
  {
    assert ([d] + rest)[1..] == rest;
  }

  lemma {:induction false} SegmentsFromTile(j: Judge, t: seq<string>, nx: seq<string>, s: nat)
    requires s < |t| == |nx|
    ensures Tiles(t, SegmentsFrom(j, t, nx, s), s, |t|)
    decreases |t| - s
  {
    var e := NextBreakFrom(j, t, nx, s, s + 1);
    var d := SegmentOf(j, t, nx, s, e);
    if e < |t| {
      SegmentsFromTile(j, t, nx, e);
      TilesCons(t, d, SegmentsFrom(j, t, nx, e), s, |t|);
    } else {
      assert Tiles(t, [], e, |t|);
      TilesCons(t, d, [], s, |t|);
    }
  }

  /** Before post-processing: when no line breaks, one "DOCUMENTO ÚNICO" with
      confidence 0.5 holding the whole text and all its lines; otherwise the
      segments start at the first break (always after line 10, so the lines
      before it belong to no segment) and tile the rest of the trimmed lines
      in order. */
  lemma {:induction false} ScanShape(j: Judge, fullText: string)
    ensures var lines := Split(fullText, '\n');
      var t := Trimmed(lines);
      var r := ScanSegments(j, fullText);
      match FirstBreakFrom(j, t, Lookaheads(lines), 0)
      case None => r == [Segment("DOCUMENTO ÚNICO", 0.5, 0, fullText, |lines|)]
      case Some(f) => f > MinSegmentLines && Tiles(t, r, f, |lines|)
  {
    var lines := Split(fullText, '\n');
    var t := Trimmed(lines);
    var nx := Lookaheads(lines);
    ScanReference(j, fullText);
    var fb := FirstBreakFrom(j, t, nx, 0);
    if fb.Some? {
      SegmentsFromTile(j, t, nx, fb.value);
    }
  }

  // --------------------------------------------------------- post-processing

  /** A segment survives when it has more than five lines or confidence above 0.8. */
  predicate Keep(d: Segment) {
    d.lineCount > 5 || d.confidence > 0.8
  }

  /** The segment's text, lower-cased, contains `word`. */
  predicate Mentions(d: Segment, word: string) {
    Contains(CaseMap.ToLower(d.text), word)
  }

  /** An unclassified segment following an initial petition that mentions
      an order or a summons: the first context rule. */
  predicate AfterPetition(cur: Segment, prev: Option<Segment>) {
    && prev.Some? && prev.value.kind == "PETIÇÃO INICIAL" && cur.kind == "DOCUMENTO"
    && (Mentions(cur, "despacho") || Mentions(cur, "cite-se"))
  }

  /** `_reclassifyByContext`: the new classification, or None for "no change". */
  function ReclassifyByContext(cur: Segment, prev: Option<Segment>): (r: Option<Classification>)
    ensures r.Some? ==> prev.Some?
    ensures r == Some(Classification("DESPACHO", 0.7)) || r == Some(Classification("AR", 0.8)) || r == None
    ensures r == Some(Classification("DESPACHO", 0.7)) <==> AfterPetition(cur, prev)
    ensures r == Some(Classification("AR", 0.8)) <==>
      !AfterPetition(cur, prev) && prev.Some? && prev.value.kind == "DESPACHO" && Mentions(cur, "recebimento")
  {
    var lower := CaseMap.ToLower(cur.text);
    if prev.Some? && prev.value.kind == "PETIÇÃO INICIAL" && cur.kind == "DOCUMENTO"
       && (Contains(lower, "despacho") || Contains(lower, "cite-se"))
    then Some(Classification("DESPACHO", 0.7))
    else if prev.Some? && prev.value.kind == "DESPACHO" && Contains(lower, "recebimento")
    then Some(Classification("AR", 0.8))
    else None
  }

  /** A doubtful segment (confidence below 0.6) takes the context rule's
      classification; any other segment is left alone. */
  function Revise(cur: Segment, prev: Option<Segment>): Segment {
    if cur.confidence < 0.6 then
      match ReclassifyByContext(cur, prev)
      case None => cur
      case Some(c) => cur.(kind := c.kind, confidence := c.confidence)
    else cur
  }

  /** The re-classification loop, each segment seeing its already revised predecessor. */
  function ReviseFrom(docs: seq<Segment>, prev: Option<Segment>): (r: seq<Segment>)
    ensures |r| == |docs|
  {
    if |docs| == 0 then []
    else
      var d := Revise(docs[0], prev);
      [d] + ReviseFrom(docs[1..], Some(d))
  }

  datatype NumberedSegment = NumberedSegment(documentNumber: nat, segment: Segment)

  function Number(docs: seq<Segment>): (r: seq<NumberedSegment>)
    ensures |r| == |docs|
    ensures forall i :: 0 <= i < |r| ==> r[i] == NumberedSegment(i + 1, docs[i])
  {
    seq(|docs|, i requires 0 <= i < |docs| => NumberedSegment(i + 1, docs[i]))
  }

  function PostProcess(docs: seq<Segment>): seq<NumberedSegment> {
    var kept := Filter(Keep, docs);
    Number(ReviseFrom(kept, None))
  }

  /** `detectDocuments`. */
  function DetectDocuments(e: Engine, fullText: string): seq<NumberedSegment> {
    PostProcess(DetectSegments(e, fullText))
  }

  /** The loop seen index by index: segment i is revised against the revised
      segment i - 1; segments at confidence 0.6 or more are untouched, and
      revision never changes a segment's lines or position. */
  lemma {:induction false} ReviseIndexwise(docs: seq<Segment>, prev: Option<Segment>)
    ensures var r := ReviseFrom(docs, prev);
      forall i :: 0 <= i < |docs| ==>
        && r[i] == Revise(docs[i], if i == 0 then prev else Some(r[i - 1]))
        && (docs[i].confidence >= 0.6 ==> r[i] == docs[i])
        && r[i].text == docs[i].text && r[i].startLine == docs[i].startLine
        && r[i].lineCount == docs[i].lineCount
  {
    if |docs| > 0 {
      var d := Revise(docs[0], prev);
      ReviseIndexwise(docs[1..], Some(d));
      var r := ReviseFrom(docs, prev);
      assert r[1..] == ReviseFrom(docs[1..], Some(d));
    }
  }

  /** Post-processing keeps exactly the segments with more than five lines or
      confidence above 0.8, in order, numbered 1..N; re-classification never
      undoes that condition. */
  lemma {:induction false} PostProcessSpec(docs: seq<Segment>)
    ensures var kept := Filter(Keep, docs);
      var r := PostProcess(docs);
      && |r| == |kept| == CountIf(Keep, docs)
      && Subseq(kept, docs)
      && (forall d :: d in kept <==> d in docs && Keep(d))
      && forall i :: 0 <= i < |r| ==>
        && r[i].documentNumber == i + 1 && Keep(r[i].segment)
        && r[i].segment == Revise(kept[i], if i == 0 then None else Some(r[i - 1].segment))
        && r[i].segment.text == kept[i].text && r[i].segment.startLine == kept[i].startLine
        && r[i].segment.lineCount == kept[i].lineCount
        && (kept[i].confidence >= 0.6 ==> r[i].segment == kept[i])
  {
    var kept := Filter(Keep, docs);
    FilterLength(Keep, docs);
    FilterSubseq(Keep, docs);
    ReviseIndexwise(kept, None);
    FilterMembers(Keep, docs);
    var rv := ReviseFrom(kept, None);
    forall i | 0 <= i < |rv| ensures Keep(rv[i]) {
      assert kept[i] in kept;
    }
  }

  /** A transcript with no break and at most five lines yields no document at
      all; with more lines it yields the single "DOCUMENTO ÚNICO" numbered 1. */
  lemma {:induction false} SingleDocumentOutcome(e: Engine, fullText: string)
    requires FirstBreakFrom(Heuristics(e), Trimmed(Split(fullText, '\n')), Lookaheads(Split(fullText, '\n')), 0).None?
    ensures |Split(fullText, '\n')| <= 5 ==> DetectDocuments(e, fullText) == []
    ensures |Split(fullText, '\n')| > 5 ==>
      DetectDocuments(e, fullText) == [NumberedSegment(1, Segment("DOCUMENTO ÚNICO", 0.5, 0, fullText, |Split(fullText, '\n')|))]
  {
    var d := Segment("DOCUMENTO ÚNICO", 0.5, 0, fullText, |Split(fullText, '\n')|);
    ScanShape(Heuristics(e), fullText);
    assert DetectSegments(e, fullText) == [d];
    assert Filter(Keep, [d]) == (if Keep(d) then [d] else []) + Filter(Keep, []);
    if Keep(d) {
      assert ReviseFrom([d], None) == [d] + ReviseFrom([], Some(d));
    }
  }
}
