/** `IntelligentCleaner`, heuristic path: every line of a text is scored by
    weighted noise signals (hashes, signatures, time stamps…) and content
    signals (sentences, citations, paragraph markers…), and kept when the
    score stays below the threshold of the cleaning mode. */
module IntelligentCleaner {
  import opened Wrappers
  import opened Regex
  import opened Seqs
  import opened Strings
  import CaseMap

  const HashPattern := Pattern("^[a-f0-9]{32,}$", "i")
  const SignaturePattern := Pattern("assinado\\s+(digitalmente|eletronicamente)", "i")
  const TimestampPattern := Pattern("\\d{2}\\/\\d{2}\\/\\d{4}\\s+\\d{2}:\\d{2}(:\\d{2})?", "")
  const ProtocolPattern := Pattern("c[óo]digo\\s+(verificador|de\\s+autentica[çc][ãa]o)", "i")
  const CertificatePattern := Pattern("(AC\\s+[A-Z]+|Certifica[çc][ãa]o\\s+Digital|ICP-Brasil)", "i")
  const PagePatterns := [
    Pattern("^p[áa]g(ina)?\\s*\\.?\\s*\\d+", "i"),
    Pattern("^\\d+\\s*\\/\\s*\\d+$", "")
  ]
  const CapsPattern := Pattern("^[A-ZÀ-ÿ\\s\\d]+$", "")
  const Blanks := Pattern("\\s+", "")
  const ParagraphPattern := Pattern("^(\\d+\\.|[IVX]+\\.|[a-z]\\)|\\([\\da-z]+\\))\\s+", "")
  const CitationPattern := Pattern("art(igo)?\\.?\\s*\\d+|lei\\s+n[úu]?\\.?\\s*\\d+", "i")
  const QuotationPattern := Pattern("[\"'].*[\"']", "")
  const PunctuationPattern := Pattern("[,;:.!?]", "g")
  const VerbPattern := Pattern("(solicita|requer|pede|alega|defende|contesta|julga|decide|determina|indefere|defere)", "i")

  /** The verb patterns of `_isCompleteSentence`. */
  const SentenceVerbs := [
    Pattern("\\b(é|são|está|estão|foi|foram|será|serão)\\b", "i"),
    Pattern("\\b(tem|têm|teve|tiveram|terá|terão)\\b", "i"),
    Pattern("\\b(deve|devem|deverá|deverão)\\b", "i"),
    Pattern("\\b(pode|podem|poderá|poderão)\\b", "i"),
    Pattern("\\b(solicita|requer|pede|alega|contesta)\\w*\\b", "i"),
    Pattern("\\b(julga|decide|determina|defere|indefere)\\w*\\b", "i")
  ]

  /** `_isCompleteSentence`: one of the verb patterns matches. */
  predicate IsCompleteSentence(e: Engine, text: string) {
    AnyTest(e, SentenceVerbs, text)
  }

  /** A complete sentence is one in which at least one of the six verb
      patterns matches. */
  lemma CompleteSentenceVerbs(e: Engine, text: string)
    ensures IsCompleteSentence(e, text) <==> CountTests(e, SentenceVerbs, text) > 0
    ensures |SentenceVerbs| == 6
  {
  }

  /** The signals of `_classifyWithHeuristics` that fired on a trimmed line,
      noise signals first, in the order they are tested. */
  datatype Signals = Signals(
    hash: bool, signature: bool, timestamp: bool, protocol: bool, certificate: bool,
    page: bool, repeated: bool, caps: bool, singleWord: bool,
    sentence: bool, paragraph: bool, citation: bool, long: bool, quotation: bool,
    punctuation: bool, verb: bool)

  predicate AnyNoise(s: Signals) {
    s.hash || s.signature || s.timestamp || s.protocol || s.certificate
    || s.page || s.repeated || s.caps || s.singleWord
  }

  predicate AnyContent(s: Signals) {
    s.sentence || s.paragraph || s.citation || s.long || s.quotation || s.punctuation || s.verb
  }

  function Weight(fired: bool, w: int): int {
    if fired then w else 0
  }

  /** The score: the weights of the fired signals, positive for noise
      (hash 15, signature 12, time stamp 10, protocol code 10, certificate
      15, page number 8, repeated line 8, short capitals 5, single word 4)
      and negative for content (sentence 15, paragraph marker 10, legal
      citation 12, long text 8, quotation 10, punctuation 4, verb 6). */
  function Score(s: Signals): (r: int)
    ensures -65 <= r <= 87
    ensures !AnyNoise(s) ==> r <= 0
    ensures !AnyContent(s) ==> r >= 0
    ensures AnyNoise(s) && !AnyContent(s) ==> r >= 4
    ensures !AnyNoise(s) && AnyContent(s) ==> r <= -4
  {
    Weight(s.hash, 15) + Weight(s.signature, 12) + Weight(s.timestamp, 10) + Weight(s.protocol, 10)
    + Weight(s.certificate, 15) + Weight(s.page, 8) + Weight(s.repeated, 8) + Weight(s.caps, 5)
    + Weight(s.singleWord, 4)
    + Weight(s.sentence, -15) + Weight(s.paragraph, -10) + Weight(s.citation, -12)
    + Weight(s.long, -8) + Weight(s.quotation, -10) + Weight(s.punctuation, -4) + Weight(s.verb, -6)
  }

  function Reason(fired: bool, text: string): seq<string> {
    if fired then [text] else []
  }

  /** The reasons of the fired signals, in test order. */
  function Reasons(s: Signals, repeats: nat): (r: seq<string>)
    ensures |r| == 0 <==> !AnyNoise(s) && !AnyContent(s)
  {
    Reason(s.hash, "Hash detectado") + Reason(s.signature, "Assinatura digital")
    + Reason(s.timestamp, "Carimbo de tempo") + Reason(s.protocol, "Código de protocolo")
    + Reason(s.certificate, "Certificado digital") + Reason(s.page, "Numeração de página")
    + Reason(s.repeated, "Linha repetida " + NatToString(repeats) + "x")
    + Reason(s.caps, "Linha curta em caixa alta") + Reason(s.singleWord, "Palavra única isolada")
    + Reason(s.sentence, "Frase completa detectada") + Reason(s.paragraph, "Marcador de parágrafo")
    + Reason(s.citation, "Citação legal") + Reason(s.long, "Texto longo")
    + Reason(s.quotation, "Citação entre aspas") + Reason(s.punctuation, "Pontuação rica")
    + Reason(s.verb, "Verbo jurídico detectado")
  }

  /** The tests of `_classifyWithHeuristics` on the trimmed line `t`, given
      how many lines of the text are equal to it after trimming. */
  function Detect(e: Engine, t: string, repeats: nat): Signals {
    Signals(
      Test(e, HashPattern, t), Test(e, SignaturePattern, t), Test(e, TimestampPattern, t),
      Test(e, ProtocolPattern, t), Test(e, CertificatePattern, t), AnyTest(e, PagePatterns, t),
      repeats > 2,
      |t| < 30 && t == CaseMap.ToUpper(t) && Test(e, CapsPattern, t),
      |SplitBy(e, Blanks, t)| == 1 && |t| > 3,
      IsCompleteSentence(e, t), Test(e, ParagraphPattern, t), Test(e, CitationPattern, t),
      |t| > 100, Test(e, QuotationPattern, t), |e(PunctuationPattern, t)| >= 2,
      Test(e, VerbPattern, t))
  }

  /** `thresholds[mode] || thresholds['MODERADO']`: LEVE is 10; AGRESSIVO's
      0 is falsy, so it falls back to 5 like MODERADO and any unknown mode. */
  function Threshold(mode: string): (r: int)
    ensures r == 10 <==> mode == "LEVE"
    ensures r == 5 <==> mode != "LEVE"
  {
    var listed := ModeThreshold(mode);
    if listed != 0 then listed else 5
  }

  /** `thresholds[mode]`, with 0 also standing for a mode that is not listed
      (`undefined`, falsy like 0). */
  function ModeThreshold(mode: string): int {
    if mode == "LEVE" then 10
    else if mode == "MODERADO" then 5
    else 0
  }

  /** `_getContext`: the joined lines before and after (at most three each)
      and how many lines equal this one after trimming. */
  datatype Context = Context(before: string, after: string, repeated: nat)

  predicate SameTrimmed(t: string, line: string) {
    TrimJs(line) == t
  }

  function GetContext(lines: seq<string>, index: nat): (r: Context)
    requires index < |lines|
    ensures r.repeated >= 1
    ensures r.repeated <= |lines|
  {
    var t := TrimJs(lines[index]);
    var p := (line: string) => SameTrimmed(t, line);
    CountIfPositive(p, lines, index);
    CountIfBound(p, lines);
    Context(Join(lines[Max(0, index - 3)..index], "\n"),
            Join(lines[index + 1..Min(|lines|, index + 4)], "\n"),
            CountIf(p, lines))
  }

  lemma {:induction false} CountIfBound<T>(p: T -> bool, xs: seq<T>)
    ensures CountIf(p, xs) <= |xs|
  {
    if |xs| > 0 {
      CountIfBound(p, xs[1..]);
    }
  }

  /** For lines that came from `split('\n')`, the context reads back as the
      up to three lines before and after the current one. */
  lemma ContextWindows(lines: seq<string>, index: nat)
    requires index < |lines|
    requires forall i :: 0 <= i < |lines| ==> '\n' !in lines[i]
    ensures index > 0 ==> Split(GetContext(lines, index).before, '\n') == lines[Max(0, index - 3)..index]
    ensures index + 1 < |lines| ==>
      Split(GetContext(lines, index).after, '\n') == lines[index + 1..Min(|lines|, index + 4)]
    ensures |Split(GetContext(lines, index).before, '\n')| <= 3
    ensures |Split(GetContext(lines, index).after, '\n')| <= 3
  {
    var b := lines[Max(0, index - 3)..index];
    var a := lines[index + 1..Min(|lines|, index + 4)];
    assert forall i :: 0 <= i < |b| ==> b[i] == lines[Max(0, index - 3) + i];
    assert forall i :: 0 <= i < |a| ==> a[i] == lines[index + 1 + i];
    if |b| > 0 {
      SplitJoin(b, '\n');
    }
    if |a| > 0 {
      SplitJoin(a, '\n');
    }
  }

  /** What `_classifyWithHeuristics` returns; `score` is absent for a blank line. */
  datatype Decision = Decision(isContent: bool, confidence: real, reason: string, score: Option<int>)

  /** The verdict on a non-blank line from its signals: content when the
      score is below the mode's threshold, with confidence |score| / 50. */
  function Judge(s: Signals, repeats: nat, mode: string): (r: Decision)
    ensures r.score == Some(Score(s))
    ensures r.isContent <==> Score(s) < Threshold(mode)
    ensures r.confidence == RAbs(Score(s) as real) / 50.0
  {
    var score := Score(s);
    var reasons := Reasons(s, repeats);
    Decision(score < Threshold(mode), RAbs(score as real) / 50.0,
             if |reasons| == 0 then "Análise heurística" else Join(reasons, ", "),
             Some(score))
  }

  /** `_classifyWithHeuristics(line, context, mode)`. */
  function ClassifyWithHeuristics(e: Engine, line: string, ctx: Context, mode: string): (r: Decision)
    ensures TrimJs(line) == "" ==> r.isContent && r.confidence == 1.0 && r.score.None?
    ensures TrimJs(line) != "" ==> r == Judge(Detect(e, TrimJs(line), ctx.repeated), ctx.repeated, mode)
  {
    var t := TrimJs(line);
    if |t| == 0 then Decision(true, 1.0, "Linha vazia", None)
    else Judge(Detect(e, t, ctx.repeated), ctx.repeated, mode)
  }

  /** A line with no noise signal is kept in every mode, a line only LEVE
      keeps scores from 5 to 9, and whatever MODERADO keeps LEVE keeps too. */
  lemma ModesNested(s: Signals, repeats: nat)
    ensures !AnyNoise(s) ==> forall mode :: Judge(s, repeats, mode).isContent
    ensures Judge(s, repeats, "MODERADO").isContent ==> Judge(s, repeats, "LEVE").isContent
    ensures Judge(s, repeats, "AGRESSIVO") == Judge(s, repeats, "MODERADO")
    ensures !Judge(s, repeats, "LEVE").isContent ==> Score(s) >= 10
  {
  }

  /** The confidence is `|score| / 50`: never negative, but above 1 for
      scores beyond ±50 (at most 87 / 50). */
  lemma ConfidenceRange(s: Signals, repeats: nat, mode: string)
    ensures 0.0 <= Judge(s, repeats, mode).confidence <= 87.0 / 50.0
  {
    var a := RAbs(Score(s) as real);
    assert 0.0 <= a <= 87.0;
    Scaled(a);
  }

  lemma Scaled(a: real)
    requires 0.0 <= a <= 87.0
    ensures 0.0 <= a / 50.0 <= 87.0 / 50.0
  {
  }

  // ---------------------------------------------------------------------
  // cleanText, heuristic path
  // ---------------------------------------------------------------------

  datatype Removed = Removed(line: string, reason: string, confidence: real, lineNumber: nat)

  /** The lines kept and the lines removed from position `i` on. */
  datatype Partition = Partition(kept: seq<string>, removed: seq<Removed>)

  /** The loop of `cleanText` from line `i` on, given the decision taken
      on every line: each line is either kept or removed. */
  function CleanFrom(lines: seq<string>, decisions: seq<Decision>, i: nat): (r: Partition)
    requires i <= |lines| == |decisions|
    ensures |r.kept| + |r.removed| == |lines| - i
    decreases |lines| - i
  {
    if i == |lines| then Partition([], [])
    else
      var rest := CleanFrom(lines, decisions, i + 1);
      var d := decisions[i];
      if d.isContent then Partition([lines[i]] + rest.kept, rest.removed)
      else Partition(rest.kept, [Removed(lines[i], d.reason, d.confidence, i + 1)] + rest.removed)
  }

  /** The kept lines are the lines with some left out, in order. */
  lemma {:induction false} CleanFromKept(lines: seq<string>, decisions: seq<Decision>, i: nat)
    requires i <= |lines| == |decisions|
    ensures Subseq(CleanFrom(lines, decisions, i).kept, lines[i..])
    decreases |lines| - i
  {
    if i < |lines| {
      CleanFromKept(lines, decisions, i + 1);
      assert lines[i..] == [lines[i]] + lines[i + 1..];
      SubseqCons(CleanFrom(lines, decisions, i + 1).kept, lines[i + 1..], lines[i]);
    }
  }

  /** A removed entry names a line that was judged noise, by its 1-based
      number, and the entries come in line order. */
  predicate RemovedWell(lines: seq<string>, decisions: seq<Decision>, i: nat, rs: seq<Removed>)
    requires |lines| == |decisions|
  {
    && (forall k :: 0 <= k < |rs| ==>
         i < rs[k].lineNumber <= |lines| && rs[k].line == lines[rs[k].lineNumber - 1]
         && !decisions[rs[k].lineNumber - 1].isContent)
    && (forall k, m :: 0 <= k < m < |rs| ==> rs[k].lineNumber < rs[m].lineNumber)
  }

  lemma {:induction false} CleanFromRemoved(lines: seq<string>, decisions: seq<Decision>, i: nat)
    requires i <= |lines| == |decisions|
    ensures RemovedWell(lines, decisions, i, CleanFrom(lines, decisions, i).removed)
    decreases |lines| - i
  {
    if i < |lines| {
      CleanFromRemoved(lines, decisions, i + 1);
      var rest := CleanFrom(lines, decisions, i + 1).removed;
      var d := decisions[i];
      if !d.isContent {
        var rs := [Removed(lines[i], d.reason, d.confidence, i + 1)] + rest;
        forall k | 0 <= k < |rs|
          ensures i < rs[k].lineNumber <= |lines| && rs[k].line == lines[rs[k].lineNumber - 1]
          ensures !decisions[rs[k].lineNumber - 1].isContent
        {
          if k > 0 {
            assert rs[k] == rest[k - 1];
          }
        }
        forall k, m | 0 <= k < m < |rs| ensures rs[k].lineNumber < rs[m].lineNumber {
          assert rs[m] == rest[m - 1];
          if k > 0 {
            assert rs[k] == rest[k - 1];
          }
        }
      }
    }
  }

  /** The decision on every line, each with its context. */
  function Decisions(e: Engine, lines: seq<string>, mode: string): (r: seq<Decision>)
    ensures |r| == |lines|
    ensures forall i :: 0 <= i < |lines| ==> r[i] == ClassifyWithHeuristics(e, lines[i], GetContext(lines, i), mode)
  {
    seq(|lines|, i requires 0 <= i < |lines| => ClassifyWithHeuristics(e, lines[i], GetContext(lines, i), mode))
  }

  datatype Cleaning = Cleaning(cleanedText: string, removedCount: nat, removedItems: seq<Removed>,
                               approach: string, originalLines: nat, cleanedLines: nat)

  /** `cleanText(text, mode)` without the optional model: the kept lines
      joined by '\n', and every removed line with its 1-based number. */
  function CleanText(e: Engine, text: string, mode: string): (r: Cleaning)
    ensures r.originalLines >= 1
    ensures r.cleanedLines + r.removedCount == r.originalLines
    ensures r.removedCount == |r.removedItems|
    ensures r.approach == "heuristic"
  {
    var lines := Split(text, '\n');
    var p := CleanFrom(lines, Decisions(e, lines, mode), 0);
    Cleaning(Join(p.kept, "\n"), |p.removed|, p.removed, "heuristic", |lines|, |p.kept|)
  }

  /** `statistics.removalRate` before `toFixed(1)`. */
  function RemovalRate(c: Cleaning): real
    requires c.originalLines > 0
  {
    c.removedCount as real / c.originalLines as real * 100.0
  }

  /** The cleaned text is the text's lines with some left out, the others in
      order; blank lines always stay. */
  lemma CleanTextKeeps(e: Engine, text: string, mode: string)
    ensures var lines := Split(text, '\n');
      var p := CleanFrom(lines, Decisions(e, lines, mode), 0);
      && Subseq(p.kept, lines)
      && Split(CleanText(e, text, mode).cleanedText, '\n') == (if |p.kept| == 0 then [""] else p.kept)
      && forall k :: 0 <= k < |p.removed| ==> TrimJs(p.removed[k].line) != ""
  {
    var lines := Split(text, '\n');
    var p := CleanFrom(lines, Decisions(e, lines, mode), 0);
    assert lines[0..] == lines;
    CleanFromKept(lines, Decisions(e, lines, mode), 0);
    CleanFromRemoved(lines, Decisions(e, lines, mode), 0);
    if |p.kept| > 0 {
      KeptLinesClean(p.kept, lines);
      SplitJoin(p.kept, '\n');
    }
  }

  lemma {:induction false} KeptLinesClean(kept: seq<string>, lines: seq<string>)
    requires Subseq(kept, lines)
    requires forall i :: 0 <= i < |lines| ==> '\n' !in lines[i]
    ensures forall i :: 0 <= i < |kept| ==> '\n' !in kept[i]
    decreases |lines|
  {
    if |kept| > 0 {
      assert forall i :: 0 <= i < |lines| - 1 ==> lines[1..][i] == lines[i + 1];
      if kept[0] == lines[0] && Subseq(kept[1..], lines[1..]) {
        KeptLinesClean(kept[1..], lines[1..]);
        assert forall i :: 1 <= i < |kept| ==> kept[i] == kept[1..][i - 1];
      } else {
        KeptLinesClean(kept, lines[1..]);
      }
    }
  }
}
