/** The pure parts of the OCR engine (modules/ocr-engine.js): deciding
    from the text layer of the first pages whether a PDF is scanned,
    dropping low-confidence words from recognised pages, and turning
    recognised text into positioned lines. Rendering and Tesseract itself
    are not part of this model. */
module OcrEngine {
  import opened Wrappers
  import opened Seqs
  import opened Strings

  /** Fewer characters than this per sampled page means a scanned PDF. */
  const ScannedThreshold := 100

  /** How many leading pages are sampled. */
  const Samples := 3

  /** The confidence threshold used when none (or 0) is given. */
  const MinConfidence: real := 30.0

  // ===== Scanned detection =====

  /** The text of one page: its items' strings (a missing one as "") joined
      by spaces and trimmed. */
  function PageText(items: seq<Option<string>>): string {
    TrimJs(Join(seq(|items|, k requires 0 <= k < |items| => if items[k].Some? then items[k].value else ""), " "))
  }

  function TotalChars(pages: seq<seq<Option<string>>>): nat {
    if |pages| == 0 then 0 else |PageText(pages[0])| + TotalChars(pages[1..])
  }

  /** What `detectIfScanned` returns; `average` is None where JavaScript
      divides 0 by 0 (a PDF without pages), and `failed` marks the result of
      the `catch` branch. */
  datatype Detection = Detection(isScanned: bool, average: Option<real>, threshold: int, pagesChecked: nat, failed: bool)

  /** `detectIfScanned` over the text items of every page, or None when the
      PDF cannot be read. */
  function DetectIfScanned(pdf: Option<seq<seq<Option<string>>>>): (r: Detection)
    ensures pdf.None? ==> r.failed && !r.isScanned
    ensures pdf.Some? ==> && !r.failed && r.threshold == ScannedThreshold
                          && r.pagesChecked == Min(Samples, |pdf.value|)
                          && (r.average.Some? <==> r.pagesChecked > 0)
                          && (r.average.Some? ==> r.average.value * r.pagesChecked as real
                                                  == TotalChars(pdf.value[..r.pagesChecked]) as real)
  {
    if pdf.None? then Detection(false, None, 0, 0, true)
    else
      var n := Min(Samples, |pdf.value|);
      var total := TotalChars(pdf.value[..n]);
      if n == 0 then Detection(false, None, ScannedThreshold, 0, false)
      else
        var average := total as real / n as real;
        Detection(average < ScannedThreshold as real, Some(average), ScannedThreshold, n, false)
  }

  /** A readable PDF is scanned exactly when its first pages (at most three)
      exist and average fewer than 100 characters of text each. */
  lemma ScannedSpec(pages: seq<seq<Option<string>>>)
    ensures var n := Min(Samples, |pages|);
      DetectIfScanned(Some(pages)).isScanned <==> n > 0 && TotalChars(pages[..n]) < ScannedThreshold * n
  {
    var n := Min(Samples, |pages|);
    if n > 0 {
      AverageBelow(TotalChars(pages[..n]), n, ScannedThreshold);
    }
  }

  /** A mean of `total` over `n` is below `bound` exactly when `total` is below `bound * n`. */
  lemma AverageBelow(total: nat, n: nat, bound: nat)
    requires n > 0
    ensures total as real / n as real < bound as real <==> total < bound * n
  {
    var a := total as real / n as real;
    assert a * n as real == total as real;
    assert (bound * n) as real == bound as real * n as real;
    if a < bound as real {
      assert a * n as real < bound as real * n as real;
    } else {
      assert a * n as real >= bound as real * n as real;
    }
  }

  /** Pages after the third do not affect the decision. */
  lemma ScannedSamplesOnly(pages: seq<seq<Option<string>>>, rest: seq<seq<Option<string>>>)
    requires |pages| >= Samples
    ensures DetectIfScanned(Some(pages + rest)) == DetectIfScanned(Some(pages))
  {
    assert (pages + rest)[..Samples] == pages[..Samples];
  }

  // ===== Low-confidence words =====

  datatype Word = Word(text: string, confidence: real)

  /** A recognised page; `words` is None when the page has none listed. */
  datatype OcrPage = OcrPage(words: Option<seq<Word>>, text: string, pageNumber: int, confidence: real)

  /** `minConfidence || MIN_CONFIDENCE`: a missing or zero threshold gives 30. */
  function Threshold(minConfidence: Option<real>): (t: real)
    ensures minConfidence.Some? && minConfidence.value != 0.0 ==> t == minConfidence.value
    ensures minConfidence.None? || minConfidence.value == 0.0 ==> t == MinConfidence
  {
    if minConfidence.Some? && minConfidence.value != 0.0 then minConfidence.value else MinConfidence
  }

  function Confident(threshold: real): Word -> bool {
    (w: Word) => w.confidence >= threshold
  }

  function WordsOf(p: OcrPage): seq<Word> {
    if p.words.Some? then p.words.value else []
  }

  function WordTexts(ws: seq<Word>): (r: seq<string>)
    ensures |r| == |ws|
    ensures forall k :: 0 <= k < |ws| ==> r[k] == ws[k].text
  {
    Seqs.Map((w: Word) => w.text, ws)
  }

  /** One page with its low-confidence words dropped and its text rebuilt from the rest. */
  function FilterPage(p: OcrPage, threshold: real): (r: OcrPage)
    ensures r.words == Some(Filter(Confident(threshold), WordsOf(p)))
    ensures r.text == Join(WordTexts(r.words.value), " ")
    ensures r.pageNumber == p.pageNumber && r.confidence == p.confidence
  {
    var kept := Filter(Confident(threshold), WordsOf(p));
    p.(words := Some(kept), text := Join(WordTexts(kept), " "))
  }

  /** `filterLowConfidenceWords`. */
  function FilterLowConfidenceWords(pages: seq<OcrPage>, minConfidence: Option<real>): (r: seq<OcrPage>)
    ensures |r| == |pages|
    ensures forall k :: 0 <= k < |r| ==> r[k] == FilterPage(pages[k], Threshold(minConfidence))
  {
    seq(|pages|, k requires 0 <= k < |pages| => FilterPage(pages[k], Threshold(minConfidence)))
  }

  /** A page keeps exactly its words at or above the threshold, in their order. */
  lemma FilterPageKeeps(p: OcrPage, threshold: real)
    ensures forall w :: w in FilterPage(p, threshold).words.value <==> w in WordsOf(p) && w.confidence >= threshold
    ensures Subseq(FilterPage(p, threshold).words.value, WordsOf(p))
  {
    FilterMembers(Confident(threshold), WordsOf(p));
    FilterSubseq(Confident(threshold), WordsOf(p));
  }

  /** Filtering at a threshold and then at a higher one is filtering at the higher one. */
  lemma {:induction false} FilterThresholds(ws: seq<Word>, low: real, high: real)
    requires low <= high
    ensures Filter(Confident(high), Filter(Confident(low), ws)) == Filter(Confident(high), ws)
  {
    if |ws| > 0 {
      FilterThresholds(ws[1..], low, high);
      var f := Filter(Confident(low), ws);
      assert Confident(low)(ws[0]) == (ws[0].confidence >= low);
      assert Confident(high)(ws[0]) == (ws[0].confidence >= high);
      if ws[0].confidence >= low {
        assert f == [ws[0]] + Filter(Confident(low), ws[1..]);
        assert f[0] == ws[0] && f[1..] == Filter(Confident(low), ws[1..]);
      } else {
        assert f == Filter(Confident(low), ws[1..]);
      }
    }
  }

  /** Filtering a filtered page again at the same threshold changes nothing. */
  lemma FilterPageIdempotent(p: OcrPage, threshold: real)
    ensures FilterPage(FilterPage(p, threshold), threshold) == FilterPage(p, threshold)
  {
    FilterThresholds(WordsOf(p), threshold, threshold);
  }

  // ===== Lines =====

  datatype OcrLine = OcrLine(text: string, y: int, x: int, pageHeight: int)

  const LineSpacing := 20
  const PageHeight := 1000

  /** `convertToLines`: one line per newline-separated piece, stacked 20 units apart. */
  function ConvertToLines(text: string): (r: seq<OcrLine>)
    ensures |r| >= 1
    ensures forall k :: 0 <= k < |r| ==> r[k].y == LineSpacing * k && r[k].x == 0 && r[k].pageHeight == PageHeight
    ensures forall k :: 0 <= k < |r| ==> '\n' !in r[k].text
  {
    var pieces := Split(text, '\n');
    seq(|pieces|, k requires 0 <= k < |pieces| => OcrLine(pieces[k], LineSpacing * k, 0, PageHeight))
  }

  function LineTexts(lines: seq<OcrLine>): (r: seq<string>)
    ensures |r| == |lines|
    ensures forall k :: 0 <= k < |lines| ==> r[k] == lines[k].text
  {
    Seqs.Map((l: OcrLine) => l.text, lines)
  }

  /** Joining the lines' texts with newlines gives back the recognised text. */
  lemma LinesRoundTrip(text: string)
    ensures Join(LineTexts(ConvertToLines(text)), "\n") == text
  {
    assert LineTexts(ConvertToLines(text)) == Split(text, '\n');
    JoinSplit(text, '\n');
  }

  /** Lines appear top to bottom in text order. */
  lemma LinesDescend(text: string, i: nat, j: nat)
    requires i < j < |ConvertToLines(text)|
    ensures ConvertToLines(text)[i].y < ConvertToLines(text)[j].y
  {
  }

  datatype RecognisedPage = RecognisedPage(text: string, pageNumber: int, confidence: real)

  datatype MergedPage = MergedPage(lines: seq<OcrLine>, pageNumber: int, confidence: real)

  /** `mergeOCRPages`: one page per recognised page, in order, with its
      number and confidence, and its text as lines. */
  function MergeOcrPages(pages: seq<RecognisedPage>): (r: seq<MergedPage>)
    ensures |r| == |pages|
    ensures forall k :: 0 <= k < |r| ==> r[k].pageNumber == pages[k].pageNumber && r[k].confidence == pages[k].confidence
    ensures forall k :: 0 <= k < |r| ==> Join(LineTexts(r[k].lines), "\n") == pages[k].text
  {
    var r := seq(|pages|, k requires 0 <= k < |pages| =>
      MergedPage(ConvertToLines(pages[k].text), pages[k].pageNumber, pages[k].confidence));
    assert forall k :: 0 <= k < |r| ==> Join(LineTexts(r[k].lines), "\n") == pages[k].text by {
      forall k | 0 <= k < |r| ensures Join(LineTexts(r[k].lines), "\n") == pages[k].text {
        LinesRoundTrip(pages[k].text);
      }
    }
    r
  }
}
