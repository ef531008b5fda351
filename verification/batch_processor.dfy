/** The bookkeeping of batch processing (modules/batch-processor.js): the
    queue of pending files, the export file names and contents, and the
    aggregate statistics over finished items. The concurrent processing
    loop itself is not part of this model. */
module BatchProcessor {
  import opened Wrappers
  import opened Seqs

  /** A file handed to the batch; only its name is read. */
  datatype File = File(name: string)

  datatype Status = Pending | Processing | Completed | Failed

  /** What a processing function returns, as far as the batch reads it.
      A field is None when it is missing; `extraction` is `method`, `percentage` is
      `confidenceScore.percentage`, None when either is missing. */
  datatype Output = Output(extraction: Option<string>, percentage: Option<real>, cleanText: Option<string>,
                           text: Option<string>, markdown: Option<string>, html: Option<string>)

  datatype QueueItem = QueueItem(file: File, status: Status, result: Option<Output>, error: Option<string>)

  /** A finished item: the file name and the processing result, None when
      the processing function returned nothing. */
  datatype Done = Done(file: string, result: Option<Output>)

  datatype Failure = Failure(file: string, error: string)

  /** The numeric options, None when not given. */
  datatype Options = Options(maxConcurrency: Option<int>, globalTimeout: Option<int>, maxRetries: Option<int>)

  datatype Processor = Processor(queue: seq<QueueItem>, active: int, results: seq<Done>, errors: seq<Failure>,
                                 maxConcurrency: int, globalTimeout: int, maxRetries: int)

  const DefaultConcurrency := 2
  const DefaultTimeout := 600000
  const DefaultRetries := 1

  /** `option || fallback` on a number: a missing option or 0 gives the fallback. */
  function OrDefault(option: Option<int>, fallback: int): (r: int)
    ensures option.Some? && option.value != 0 ==> r == option.value
    ensures option.None? || option.value == 0 ==> r == fallback
  {
    if option.Some? && option.value != 0 then option.value else fallback
  }

  /** The constructor: nothing queued, running or finished. */
  function New(options: Options): (p: Processor)
    ensures p.queue == [] && p.active == 0 && p.results == [] && p.errors == []
    ensures p.maxConcurrency == OrDefault(options.maxConcurrency, DefaultConcurrency)
    ensures p.globalTimeout == OrDefault(options.globalTimeout, DefaultTimeout)
    ensures p.maxRetries == OrDefault(options.maxRetries, DefaultRetries)
  {
    Processor([], 0, [], [], OrDefault(options.maxConcurrency, DefaultConcurrency),
              OrDefault(options.globalTimeout, DefaultTimeout), OrDefault(options.maxRetries, DefaultRetries))
  }

  function PendingItem(f: File): QueueItem {
    QueueItem(f, Pending, None, None)
  }

  /** `addFiles`: one pending item per file, in order, after the queue. */
  function AddFiles(p: Processor, files: seq<File>): (r: Processor)
    ensures |r.queue| == |p.queue| + |files|
    ensures r.queue[..|p.queue|] == p.queue
    ensures forall k :: 0 <= k < |files| ==> r.queue[|p.queue| + k] == PendingItem(files[k])
    ensures r == p.(queue := r.queue)
  {
    p.(queue := p.queue + seq(|files|, k requires 0 <= k < |files| => PendingItem(files[k])))
  }

  /** `reset`: the queue, the running count and the outcomes are cleared; the settings stay. */
  function Reset(p: Processor): (r: Processor)
    ensures r.queue == [] && r.active == 0 && r.results == [] && r.errors == []
    ensures r.maxConcurrency == p.maxConcurrency && r.globalTimeout == p.globalTimeout && r.maxRetries == p.maxRetries
  {
    p.(queue := [], active := 0, results := [], errors := [])
  }

  /** Adding files in two calls queues the same items as adding them in one. */
  lemma AddFilesTwice(p: Processor, a: seq<File>, b: seq<File>)
    ensures AddFiles(AddFiles(p, a), b) == AddFiles(p, a + b)
  {
    var r1 := AddFiles(AddFiles(p, a), b);
    var r2 := AddFiles(p, a + b);
    assert |r1.queue| == |r2.queue|;
    forall k | 0 <= k < |r1.queue| ensures r1.queue[k] == r2.queue[k] {
      if k < |p.queue| {
        assert r1.queue[k] == AddFiles(p, a).queue[k] == p.queue[k];
        assert r2.queue[..|p.queue|][k] == r2.queue[k];
      } else if k < |p.queue| + |a| {
        assert r1.queue[k] == AddFiles(p, a).queue[..|p.queue| + |a|][k];
        assert (a + b)[k - |p.queue|] == a[k - |p.queue|];
      } else {
        assert (a + b)[k - |p.queue|] == b[k - |p.queue| - |a|];
      }
    }
  }

  /** A reset forgets every queued file, and a fresh processor is already reset. */
  lemma ResetForgets(p: Processor, files: seq<File>, options: Options)
    ensures Reset(AddFiles(p, files)) == Reset(p)
    ensures Reset(New(options)) == New(options)
  {
  }

  // ===== Export names and contents =====

  function IsCase(c: char, lower: char, upper: char): bool {
    c == lower || c == upper
  }

  /** `.pdf` in any letter case (`/\.pdf$/i`). */
  predicate PdfSuffix(t: string) {
    |t| == 4 && t[0] == '.' && IsCase(t[1], 'p', 'P') && IsCase(t[2], 'd', 'D') && IsCase(t[3], 'f', 'F')
  }

  predicate EndsWithPdf(s: string) {
    |s| >= 4 && PdfSuffix(s[|s| - 4..])
  }

  /** The extension of an export format; an unknown format exports as text. */
  function Extension(format: string): (ext: string)
    ensures ext in ["txt", "md", "html", "docx"]
    ensures ext == format || (ext == "txt" && format !in ["txt", "md", "html", "docx"])
  {
    if format in ["txt", "md", "html", "docx"] then format else "txt"
  }

  const Suffix := "_processado."

  /** `generateFilename`: one trailing `.pdf` (any case) replaced by
      `_processado.` and the format's extension. */
  function GenerateFilename(name: string, format: string): (r: string)
    ensures exists base :: r == base + Suffix + Extension(format) && base <= name && |name| - |base| in {0, 4}
  {
    var base := if EndsWithPdf(name) then name[..|name| - 4] else name;
    base + Suffix + Extension(format)
  }

  /** A name ending in `.pdf`, in any case, loses exactly that one suffix. */
  lemma FilenameOfPdf(base: string, suffix: string, format: string)
    requires PdfSuffix(suffix)
    ensures GenerateFilename(base + suffix, format) == base + Suffix + Extension(format)
  {
    var name := base + suffix;
    assert name[|name| - 4..] == suffix;
    assert name[..|name| - 4] == base;
  }

  /** Any other name is kept whole. */
  lemma FilenameOfOther(name: string, format: string)
    requires !EndsWithPdf(name)
    ensures GenerateFilename(name, format) == name + Suffix + Extension(format)
  {
  }

  /** A string field as JavaScript's `||` reads it: missing and "" are falsy. */
  predicate Truthy(s: Option<string>) {
    s.Some? && s.value != ""
  }

  /** `a || b`. */
  function Or(a: Option<string>, b: string): (r: string)
    ensures Truthy(a) ==> r == a.value
    ensures !Truthy(a) ==> r == b
  {
    if Truthy(a) then a.value else b
  }

  /** The field a format prefers over `text`, None for the text-only formats. */
  function Preferred(o: Output, format: string): Option<string> {
    match format
    case "txt" => o.cleanText
    case "md" => o.markdown
    case "html" => o.html
    case _ => None
  }

  /** `formatContent`: the format's own field, else `text`, else "". */
  function FormatContent(o: Output, format: string): (r: string)
    ensures Truthy(Preferred(o, format)) ==> r == Preferred(o, format).value
    ensures !Truthy(Preferred(o, format)) && Truthy(o.text) ==> r == o.text.value
    ensures !Truthy(Preferred(o, format)) && !Truthy(o.text) ==> r == ""
  {
    match format
    case "txt" => Or(o.cleanText, Or(o.text, ""))
    case "md" => Or(o.markdown, Or(o.text, ""))
    case "html" => Or(o.html, Or(o.text, ""))
    case _ => Or(o.text, "")
  }

  /** The content is empty exactly when every field on the format's chain
      is falsy, and `docx` and unknown formats read only `text`. */
  lemma FormatContentEmpty(o: Output, format: string)
    ensures FormatContent(o, format) == "" <==> !Truthy(Preferred(o, format)) && !Truthy(o.text)
    ensures format !in ["txt", "md", "html"] ==> FormatContent(o, format) == Or(o.text, "")
  {
  }

  // ===== Aggregates =====

  /** `item.result?.confidenceScore?.percentage || 0`. */
  function Confidence(d: Done): real {
    if d.result.Some? && d.result.value.percentage.Some? then d.result.value.percentage.value else 0.0
  }

  function Confidences(results: seq<Done>): (r: seq<real>)
    ensures |r| == |results|
    ensures forall k :: 0 <= k < |r| ==> r[k] == Confidence(results[k])
  {
    seq(|results|, k requires 0 <= k < |results| => Confidence(results[k]))
  }

  /** `calculateAverageConfidence`: the mean confidence, 0 for no results. */
  function AverageConfidence(results: seq<Done>): (r: real)
    ensures |results| == 0 ==> r == 0.0
    ensures |results| > 0 ==> r * |results| as real == SumReal(Confidences(results))
  {
    if |results| == 0 then 0.0 else SumReal(Confidences(results)) / |results| as real
  }

  lemma {:induction false} SumRealBounds(xs: seq<real>, lo: real, hi: real)
    requires forall k :: 0 <= k < |xs| ==> lo <= xs[k] <= hi
    ensures lo * |xs| as real <= SumReal(xs) <= hi * |xs| as real
  {
    if |xs| > 0 {
      SumRealBounds(xs[1..], lo, hi);
      assert SumReal(xs) == xs[0] + SumReal(xs[1..]);
    }
  }

  /** The mean lies within any bounds every confidence lies within. */
  lemma AverageBounds(results: seq<Done>, lo: real, hi: real)
    requires |results| > 0
    requires forall k :: 0 <= k < |results| ==> lo <= Confidence(results[k]) <= hi
    ensures lo <= AverageConfidence(results) <= hi
  {
    var n := |results| as real;
    SumRealBounds(Confidences(results), lo, hi);
    var r := AverageConfidence(results);
    assert r * n == SumReal(Confidences(results));
    Cancel(lo, r, n);
    Cancel(r, hi, n);
  }

  lemma Cancel(x: real, y: real, n: real)
    requires n > 0.0 && x * n <= y * n
    ensures x <= y
  {
    assert (y - x) * n >= 0.0;
  }

  datatype MethodCounts = MethodCounts(structural: nat, ocr: nat)

  /** Only the exact method "ocr" counts as OCR; a missing or empty method is structural. */
  predicate IsOcr(d: Done) {
    d.result.Some? && d.result.value.extraction == Some("ocr")
  }

  /** `countMethods`. */
  function CountMethods(results: seq<Done>): (r: MethodCounts)
    ensures r.structural + r.ocr == |results|
    ensures r.ocr == CountIf(IsOcr, results)
  {
    if |results| == 0 then MethodCounts(0, 0)
    else
      var rest := CountMethods(results[1..]);
      if IsOcr(results[0]) then rest.(ocr := rest.ocr + 1) else rest.(structural := rest.structural + 1)
  }

  /** Counting a batch in two parts and adding gives the count of the whole. */
  lemma CountMethodsAppend(a: seq<Done>, b: seq<Done>)
    ensures CountMethods(a + b).ocr == CountMethods(a).ocr + CountMethods(b).ocr
    ensures CountMethods(a + b).structural == CountMethods(a).structural + CountMethods(b).structural
  {
    CountIfAppend(IsOcr, a, b);
  }
}
