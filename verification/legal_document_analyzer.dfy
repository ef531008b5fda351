/** Whole-text analyzer of procedural documents
    (modules/legal-document-analyzer.js): every kind of document is scored by
    how often its patterns occur, penalised by its exclusion patterns; the
    best kind wins with ties going to the kind declared first; a text holding
    several documents is cut at separator headings. */
module LegalDocumentAnalyzer {
  import opened Wrappers
  import opened Regex
  import opened Seqs
  import opened Strings
  import StableSort

  /** A kind of procedural document: key, display name, suggested place in
      the chronology, positive patterns and exclusion patterns. */
  datatype PieceType = PieceType(key: string, name: string, order: int, patterns: seq<Pattern>, exclusions: seq<Pattern>)

  /** The kinds in declaration order (`Object.entries` order). */
  const PieceTypes: seq<PieceType> := [
    PieceType("peticao_inicial", "Petição Inicial", 1, PeticaoInicialPatterns, PeticaoInicialExclusions),
    PieceType("contestacao", "Contestação", 2, ContestacaoPatterns, []),
    PieceType("replica", "Réplica", 3, ReplicaPatterns, []),
    PieceType("despacho", "Despacho", 10, DespachoPatterns, DespachoExclusions),
    PieceType("decisao_interlocutoria", "Decisão Interlocutória", 11, DecisaoInterlocutoriaPatterns, DecisaoInterlocutoriaExclusions),
    PieceType("sentenca", "Sentença", 20, SentencaPatterns, SentencaExclusions),
    PieceType("acordao", "Acórdão", 30, AcordaoPatterns, []),
    PieceType("parecer_mp", "Parecer do Ministério Público", 15, ParecerMpPatterns, []),
    PieceType("agravo", "Agravo de Instrumento", 25, AgravoPatterns, []),
    PieceType("apelacao", "Apelação", 26, ApelacaoPatterns, []),
    PieceType("embargos_declaracao", "Embargos de Declaração", 27, EmbargosDeclaracaoPatterns, []),
    PieceType("mandado", "Mandado", 40, MandadoPatterns, []),
    PieceType("ata_audiencia", "Ata de Audiência", 45, AtaAudienciaPatterns, [])
  ]

  const PeticaoInicialPatterns: seq<Pattern> := [
    Pattern("excelent[íi]ssimo\\s+senhor\\s+(?:doutor\\s+)?juiz(?:\\s+de\\s+direito)?", "gi"),
    Pattern("\\bpeti[çc][ãa]o\\s+inicial\\b", "gi"),
    Pattern("vem,?\\s+(?:por\\s+seu\\s+advogado|respeitosamente),?\\s+(?:à|a)\\s+presen[çc]a\\s+de\\s+vossa\\s+excel[êe]ncia", "gi"),
    Pattern("requer(?:er)?[:\\s]+(?:.*?)(?:cita[çc][ãa]o|intima[çc][ãa]o)", "gis"),
    Pattern("\\bdos\\s+fatos\\b.*?\\bdo\\s+direito\\b.*?\\bdos\\s+pedidos\\b", "gis"),
    Pattern("termos\\s+em\\s+que[,\\s]+pede\\s+deferimento", "gi")
  ]

  const PeticaoInicialExclusions: seq<Pattern> := [
    Pattern("\\bcontesta[çc][ãa]o\\b", "gi"),
    Pattern("\\br[ée]plica\\b", "gi")
  ]

  const ContestacaoPatterns: seq<Pattern> := [
    Pattern("\\bcontesta[çc][ãa]o\\b", "gi"),
    Pattern("vem,?\\s+(?:respeitosamente,?\\s+)?apresentar\\s+(?:sua\\s+)?contesta[çc][ãa]o", "gi"),
    Pattern("(?:r[ée]u|contestante|requerido).*?vem\\s+(?:à|a)\\s+presen[çc]a", "gi"),
    Pattern("impugna[çc][ãa]o\\s+(?:aos\\s+)?fatos", "gi"),
    Pattern("preliminar(?:es)?\\s+de", "gi")
  ]

  const ReplicaPatterns: seq<Pattern> := [
    Pattern("\\br[ée]plica\\b", "gi"),
    Pattern("vem.*?apresentar.*?r[ée]plica", "gi"),
    Pattern("impugnar\\s+a\\s+contesta[çc][ãa]o", "gi")
  ]

  const DespachoPatterns: seq<Pattern> := [
    Pattern("^despacho\\b", "gim"),
    Pattern("\\bdespacho\\s*:\\s*$", "gim"),
    Pattern("(?:intime[mn]-se|cite[mn]-se|cumpra-se|arquive[mn]-se)", "gi"),
    Pattern("vista\\s+(?:à|ao)\\s+(?:autor|r[ée]u|minist[ée]rio\\s+p[úu]blico)", "gi"),
    Pattern("^(?:fl\\.|fls\\.?)\\s*\\d+", "gim")
  ]

  const DespachoExclusions: seq<Pattern> := [
    Pattern("\\bdecis[ãa]o\\s+interlocut[óo]ria\\b", "gi"),
    Pattern("\\bsenten[çc]a\\b", "gi"),
    Pattern("\\bac[óo]rd[ãa]o\\b", "gi")
  ]

  const DecisaoInterlocutoriaPatterns: seq<Pattern> := [
    Pattern("\\bdecis[ãa]o\\s+interlocut[óo]ria\\b", "gi"),
    Pattern("(?:defiro|indefiro).*?(?:tutela|liminar|medida)", "gi"),
    Pattern("\\btutela\\s+(?:antecipada|provis[óo]ria|de\\s+urg[êe]ncia)\\b", "gi"),
    Pattern("\\bliminar\\b.*?\\b(?:concedida|deferida|indeferida)\\b", "gi"),
    Pattern("decido\\s*:", "gi")
  ]

  const DecisaoInterlocutoriaExclusions: seq<Pattern> := [
    Pattern("\\bsenten[çc]a\\b", "gi"),
    Pattern("\\bjulgo\\s+(?:procedente|improcedente)\\b", "gi")
  ]

  const SentencaPatterns: seq<Pattern> := [
    Pattern("\\bsenten[çc]a\\b", "gi"),
    Pattern("\\bjulgo\\s+(?:procedente|improcedente|parcialmente\\s+procedente)", "gi"),
    Pattern("\\brelatório\\b.*?\\bfundamenta[çc][ãa]o\\b.*?\\bdispositivo\\b", "gis"),
    Pattern("pelo\\s+exposto.*?julgo", "gi"),
    Pattern("ante\\s+o\\s+exposto.*?(?:julgo|decido)", "gi"),
    Pattern("(?:condeno|absolvo)\\s+(?:o\\s+)?(?:r[ée]u|autor)", "gi"),
    Pattern("custas\\s+(?:processuais\\s+)?(?:pelo\\s+)?(?:autor|r[ée]u|vencido)", "gi"),
    Pattern("honor[áa]rios\\s+advocat[íi]cios", "gi")
  ]

  const SentencaExclusions: seq<Pattern> := [
    Pattern("\\bac[óo]rd[ãa]o\\b", "gi"),
    Pattern("\\b(?:tribunal|turma|c[âa]mara)\\b", "gi")
  ]

  const AcordaoPatterns: seq<Pattern> := [
    Pattern("\\bac[óo]rd[ãa]o\\b", "gi"),
    Pattern("\\b(?:tribunal|turma|c[âa]mara)\\b.*?\\b(?:vistos|relatados|discutidos)\\b", "gis"),
    Pattern("\\b(?:relator|revisor)\\s*:\\s*(?:des\\.|desembargador|ministro)", "gi"),
    Pattern("\\bementa\\b", "gi"),
    Pattern("(?:vistos|relatados|discutidos)\\s+e\\s+(?:relatados|discutidos)\\s+(?:estes|os\\s+presentes)\\s+autos", "gi"),
    Pattern("acordam\\s+(?:os\\s+)?(?:desembargadores|ministros)", "gi"),
    Pattern("(?:dar|negar|dar\\s+parcial)\\s+provimento\\s+ao\\s+recurso", "gi")
  ]

  const ParecerMpPatterns: seq<Pattern> := [
    Pattern("\\bparecer\\b.*?\\bminist[ée]rio\\s+p[úu]blico\\b", "gis"),
    Pattern("\\bpromotor(?:ia)?\\s+de\\s+justi[çc]a\\b", "gi"),
    Pattern("\\bprocurador(?:ia)?\\s+(?:de\\s+)?justi[çc]a\\b", "gi"),
    Pattern("\\bórgão\\s+ministerial\\b", "gi"),
    Pattern("(?:é|[ée])\\s+o\\s+parecer", "gi"),
    Pattern("opina\\s+(?:pelo\\s+)?(?:provimento|desprovimento|acolhimento|rejei[çc][ãa]o)", "gi")
  ]

  const AgravoPatterns: seq<Pattern> := [
    Pattern("\\bagravo\\s+de\\s+instrumento\\b", "gi"),
    Pattern("\\bagravo\\s+interno\\b", "gi"),
    Pattern("interpõe\\s+(?:o\\s+presente\\s+)?agravo", "gi"),
    Pattern("insurge-se\\s+contra\\s+a\\s+decis[ãa]o", "gi")
  ]

  const ApelacaoPatterns: seq<Pattern> := [
    Pattern("\\bapela[çc][ãa]o\\b(?!\\s+c[íi]vel)", "gi"),
    Pattern("interpõe\\s+(?:a\\s+presente\\s+)?apela[çc][ãa]o", "gi"),
    Pattern("inconformado\\s+com\\s+a\\s+senten[çc]a", "gi"),
    Pattern("razões\\s+(?:de\\s+)?apela[çc][ãa]o", "gi")
  ]

  const EmbargosDeclaracaoPatterns: seq<Pattern> := [
    Pattern("\\bembargos\\s+de\\s+declara[çc][ãa]o\\b", "gi"),
    Pattern("opõe\\s+embargos\\s+declaratórios", "gi"),
    Pattern("(?:omiss[ãa]o|contradi[çc][ãa]o|obscuridade)", "gi")
  ]

  const MandadoPatterns: seq<Pattern> := [
    Pattern("^mandado\\s+de\\s+(?:cita[çc][ãa]o|intima[çc][ãa]o|pris[ãa]o|busca|penhora)", "gim"),
    Pattern("\\boficial\\s+de\\s+justi[çc]a\\b", "gi"),
    Pattern("cumprimento\\s+de\\s+mandado", "gi")
  ]

  const AtaAudienciaPatterns: seq<Pattern> := [
    Pattern("\\bata\\s+de\\s+audi[êe]ncia\\b", "gi"),
    Pattern("audi[êe]ncia\\s+de\\s+(?:concilia[çc][ãa]o|instru[çc][ãa]o|justifica[çc][ãa]o)", "gi"),
    Pattern("aos?\\s+\\d{1,2}\\s+dias?\\s+do\\s+m[êe]s\\s+de", "gi"),
    Pattern("\\btermo\\s+de\\s+audi[êe]ncia\\b", "gi"),
    Pattern("presente(?:s)?:.*?(?:autor|r[ée]u|advogado)", "gis")
  ]

  // ------------------------------------------------------------------ scoring

  /** Number of matches of every pattern of `ps` in `s`, added up. */
  function CountAll(e: Engine, ps: seq<Pattern>, s: string): nat {
    if |ps| == 0 then 0 else |e(ps[0], s)| + CountAll(e, ps[1..], s)
  }

  /** The text of every match of every pattern of `ps`, pattern by pattern. */
  function MatchesAll(e: Engine, ps: seq<Pattern>, s: string): (r: seq<string>)
    ensures |r| == CountAll(e, ps, s)
  {
    if |ps| == 0 then [] else MatchAll(e, ps[0], s) + MatchesAll(e, ps[1..], s)
  }

  datatype TypeScore = TypeScore(score: nat, matches: seq<string>)

  /** `calculateTypeScore`: one point per positive match, minus two per
      exclusion match, floored at zero; the matched texts are collected. */
  function CalculateTypeScore(e: Engine, t: PieceType, text: string): (r: TypeScore)
    ensures r.matches == MatchesAll(e, t.patterns, text)
    ensures r.score <= |r.matches|
    ensures r.score == 0 <==> |r.matches| <= 2 * CountAll(e, t.exclusions, text)
    ensures CountAll(e, t.exclusions, text) == 0 ==> r.score == |r.matches|
  {
    var matches := MatchesAll(e, t.patterns, text);
    var raw := CountAll(e, t.patterns, text) - 2 * CountAll(e, t.exclusions, text);
    TypeScore(if raw > 0 then raw else 0, matches)
  }

  /** `normalizeConfidence` at the integer scores it receives: 0 and 1 are
      special-cased to 0 and 50; from 2 on the value is
      `Math.round(100 / (1 + exp(-0.5 * (score - 3))))`, tabulated below
      (the curve passes 99.5 between 13 and 14). */
  function NormalizeConfidence(score: nat): nat {
    if score == 0 then 0
    else if score == 1 then 50
    else if score >= 14 then 100
    else [38, 50, 62, 73, 82, 88, 92, 95, 97, 98, 99, 99][score - 2]
  }

  /** The confidence is a percentage, zero exactly for a zero score, at least
      50 for one match or three or more; it dips at two matches (38, below
      the special-cased 50 of one match), rises from there on and saturates
      at 100 from fourteen matches. */
  lemma {:induction false} NormalizeConfidenceShape(a: nat, b: nat)
    ensures NormalizeConfidence(a) <= 100
    ensures NormalizeConfidence(a) == 0 <==> a == 0
    ensures a == 1 || a >= 3 ==> NormalizeConfidence(a) >= 50
    ensures NormalizeConfidence(2) < NormalizeConfidence(1) == NormalizeConfidence(3)
    ensures 2 <= a <= b ==> NormalizeConfidence(a) <= NormalizeConfidence(b)
    ensures a >= 14 <==> NormalizeConfidence(a) == 100
  {
    var t := [38, 50, 62, 73, 82, 88, 92, 95, 97, 98, 99, 99];
    assert forall i, j :: 0 <= i <= j < |t| ==> t[i] <= t[j];
  }

  // ----------------------------------------------------------------- analysis

  /** One entry of `Object.entries(scores)`. */
  datatype Scored = Scored(kind: PieceType, result: TypeScore)

  /** The scores of every kind of `kinds`, in order. */
  function ScoreAll(e: Engine, kinds: seq<PieceType>, text: string): (r: seq<Scored>)
    ensures |r| == |kinds|
    ensures forall i :: 0 <= i < |r| ==> r[i] == Scored(kinds[i], CalculateTypeScore(e, kinds[i], text))
  {
    seq(|kinds|, i requires 0 <= i < |kinds| => Scored(kinds[i], CalculateTypeScore(e, kinds[i], text)))
  }

  /** Sort key of `(a, b) => b.score - a.score`: descending score. */
  function Descending(x: Scored): int {
    -(x.result.score as int)
  }

  /** `allScores`: an identified document reports each kind's score, in
      sorted order; an unidentified one reports the whole `calculateTypeScore`
      record of each kind, matches included, in declaration order. */
  datatype AllScores = ScoresOnly(scores: seq<(string, nat)>) | Records(records: seq<(string, TypeScore)>)

  datatype Analysis = Analysis(key: string, name: string, order: int, confidence: nat,
                               matches: seq<string>, allScores: AllScores)

  function ScoreTable(ss: seq<Scored>): (r: seq<(string, nat)>)
    ensures |r| == |ss|
  {
    seq(|ss|, i requires 0 <= i < |ss| => (ss[i].kind.key, ss[i].result.score))
  }

  function RecordTable(ss: seq<Scored>): (r: seq<(string, TypeScore)>)
    ensures |r| == |ss|
    ensures forall i :: 0 <= i < |r| ==> r[i] == (ss[i].kind.key, ss[i].result)
  {
    seq(|ss|, i requires 0 <= i < |ss| => (ss[i].kind.key, ss[i].result))
  }

  /** The analysis of a list of scores: the head of the stably sorted list
      when its score is positive, otherwise the unidentified document (order 999). */
  function AnalyzeScores(ss: seq<Scored>): Analysis
    requires |ss| > 0
  {
    var sorted := StableSort.Sort(ss, Descending);
    var top := sorted[0];
    if top.result.score > 0 then
      Analysis(top.kind.key, top.kind.name, top.kind.order, NormalizeConfidence(top.result.score),
               top.result.matches, ScoresOnly(ScoreTable(sorted)))
    else
      Analysis("unknown", "Documento Não Identificado", 999, 0, [], Records(RecordTable(ss)))
  }

  /** `analyzeDocument` over a table of kinds. */
  function AnalyzeWith(e: Engine, kinds: seq<PieceType>, text: string): Analysis
    requires |kinds| > 0
  {
    AnalyzeScores(ScoreAll(e, kinds, text))
  }

  /** `analyzeDocument`. */
  function AnalyzeDocument(e: Engine, text: string): Analysis {
    AnalyzeWith(e, PieceTypes, text)
  }

  /** The analysis of a score list names the entry with the highest score,
      the first among equals, with its order and normalised confidence; it is
      the unidentified document exactly when every score is zero. */
  lemma {:induction false} AnalyzeScoresBest(ss: seq<Scored>)
    requires |ss| > 0
    requires forall j :: 0 <= j < |ss| ==> ss[j].kind.key != "unknown"
    ensures var r := AnalyzeScores(ss);
      && (r.key == "unknown" <==> forall j :: 0 <= j < |ss| ==> ss[j].result.score == 0)
      && (r.key == "unknown" ==> r.order == 999 && r.confidence == 0 && r.matches == [])
      && (r.key == "unknown" ==> r.allScores == Records(RecordTable(ss)))
      && (r.key != "unknown" ==> r.allScores.ScoresOnly? && |r.allScores.scores| == |ss|)
      && (r.key != "unknown" ==> exists i :: 0 <= i < |ss| && BestAt(ss, i) && r == FromKind(ss, i, r.allScores))
  {
    var sorted := StableSort.Sort(ss, Descending);
    StableSort.SortHead(ss, Descending);
    var i := StableSort.ArgMin(ss, Descending);
    assert sorted[0] == ss[i];
    if ss[i].result.score > 0 {
      assert BestAt(ss, i);
    }
  }

  /** None of the kinds is called "unknown". */
  predicate KnownKeys(kinds: seq<PieceType>) {
    |kinds| > 0 && forall j :: 0 <= j < |kinds| ==> kinds[j].key != "unknown"
  }

  lemma KeysKnown()
    ensures KnownKeys(PieceTypes)
  {
  }

  /** `analyzeDocument` names the kind with the highest score, the first
      declared among equals, with that kind's order and normalised
      confidence; it is the unidentified document, order 999 and confidence
      0, exactly when every score is zero. */
  lemma {:induction false} AnalyzeBest(e: Engine, kinds: seq<PieceType>, text: string)
    requires KnownKeys(kinds)
    ensures var r := AnalyzeWith(e, kinds, text);
      var ss := ScoreAll(e, kinds, text);
      && (r.key == "unknown" <==> forall j :: 0 <= j < |ss| ==> ss[j].result.score == 0)
      && (r.key == "unknown" ==> r.order == 999 && r.confidence == 0 && r.matches == [])
      && (r.key == "unknown" ==> r.allScores.Records? && |r.allScores.records| == |kinds|)
      && (r.key == "unknown" ==> forall j :: 0 <= j < |kinds| ==>
            r.allScores.records[j] == (kinds[j].key, TypeScore(0, MatchesAll(e, kinds[j].patterns, text))))
      && (r.key != "unknown" ==> exists i :: 0 <= i < |ss| && BestAt(ss, i) && r == FromKind(ss, i, r.allScores))
  {
    AnalyzeScoresBest(ScoreAll(e, kinds, text));
  }

  /** Kind `i` has the highest score, and every kind declared before it a lower one. */
  predicate BestAt(ss: seq<Scored>, i: nat)
    requires i < |ss|
  {
    && (forall j :: 0 <= j < |ss| ==> ss[j].result.score <= ss[i].result.score)
    && (forall j :: 0 <= j < i ==> ss[j].result.score < ss[i].result.score)
    && ss[i].result.score > 0
  }

  function FromKind(ss: seq<Scored>, i: nat, all: AllScores): Analysis
    requires i < |ss|
  {
    var k := ss[i].kind;
    Analysis(k.key, k.name, k.order, NormalizeConfidence(ss[i].result.score), ss[i].result.matches, all)
  }

  // ------------------------------------------------------ start and end marks

  const DefaultWindow: int := 500

  const StartPatterns: seq<Pattern> := [
    Pattern("^(?:excelent[íi]ssimo|il(?:ustr[íi]ssimo)?)", "im"),
    Pattern("^(?:poder\\s+judici[áa]rio|tribunal)", "im"),
    Pattern("^\\d{7}-\\d{2}\\.\\d{4}\\.\\d\\.\\d{2}\\.\\d{4}", "m"),
    Pattern("^(?:processo|autos)\\s+n[úu]mero", "im"),
    Pattern("^despacho\\s*:", "im"),
    Pattern("^senten[çc]a\\b", "im"),
    Pattern("^ac[óo]rd[ãa]o\\b", "im")
  ]

  const EndPatterns: seq<Pattern> := [
    Pattern("(?:é|[ée])\\s+o\\s+(?:relatório|parecer)\\s*\\.?\\s*$", "im"),
    Pattern("nestes\\s+termos,?\\s+pede\\s+deferimento\\s*\\.?\\s*$", "im"),
    Pattern("(?:local|cidade).*?,?\\s+\\d{1,2}\\s+de\\s+\\w+\\s+de\\s+\\d{4}\\s*\\.?\\s*$", "im"),
    Pattern("(?:assinado\\s+)?(?:eletronicamente|digitalmente)\\s*\\.?\\s*$", "im"),
    Pattern("\\b(?:nada\\s+mais|sendo\\s+s[óo])\\b.*?$", "im")
  ]

  /** Where a heading or closing formula was found, and by which pattern. */
  datatype Mark = Mark(found: bool, position: int, pattern: string)

  /** The first pattern of `ps`, from index `k` on, that matches `s`. */
  function FirstMatching(e: Engine, ps: seq<Pattern>, s: string, k: nat): (r: Option<nat>)
    requires k <= |ps|
    ensures r.Some? ==> (k <= r.value < |ps| && Test(e, ps[r.value], s)
                         && forall j :: k <= j < r.value ==> !Test(e, ps[j], s))
    ensures r.None? ==> forall j :: k <= j < |ps| ==> !Test(e, ps[j], s)
    decreases |ps| - k
  {
    if k == |ps| then None
    else if Test(e, ps[k], s) then Some(k)
    else FirstMatching(e, ps, s, k + 1)
  }

  /** `detectDocumentStart`: the first start pattern, in list order, that
      matches within the first `windowSize` characters, and where it matches. */
  function DetectDocumentStart(e: Engine, text: string, windowSize: int): (r: Mark)
    ensures var header := Substring(text, 0, windowSize);
      && (r.found <==> AnyTest(e, StartPatterns, header))
      && (!r.found ==> r.position == -1)
      && (r.found ==> exists k :: (0 <= k < |StartPatterns| && Test(e, StartPatterns[k], header)
                                   && (forall j :: 0 <= j < k ==> !Test(e, StartPatterns[j], header))
                                   && r.pattern == StartPatterns[k].source
                                   && r.position == e(StartPatterns[k], header)[0].start))
    ensures r.found ==> 0 <= r.position <= Clamp(windowSize, |text|)
  {
    var header := Substring(text, 0, windowSize);
    match FirstMatching(e, StartPatterns, header, 0)
    case None => Mark(false, -1, "")
    case Some(k) => Mark(true, e(StartPatterns[k], header)[0].start, StartPatterns[k].source)
  }

  /** Index where the footer of `detectDocumentEnd` begins:
      `Math.max(0, text.length - windowSize)`, clamped by `substring`. */
  function FooterStart(text: string, windowSize: int): (r: nat)
    ensures r <= |text|
  {
    Clamp(Max(0, |text| - windowSize), |text|)
  }

  /** `detectDocumentEnd` as written: the reported position is
      `text.length - windowSize + match.index`, which is negative when the
      text is shorter than the window. */
  function DetectDocumentEndAsWritten(e: Engine, text: string, windowSize: int): (r: Mark)
    ensures var footer := text[FooterStart(text, windowSize)..];
      && (r.found <==> AnyTest(e, EndPatterns, footer))
      && (!r.found ==> r.position == |text|)
      && (r.found ==> exists k :: (0 <= k < |EndPatterns| && Test(e, EndPatterns[k], footer)
                                   && (forall j :: 0 <= j < k ==> !Test(e, EndPatterns[j], footer))
                                   && r.pattern == EndPatterns[k].source
                                   && r.position == |text| - windowSize + e(EndPatterns[k], footer)[0].start))
  {
    var footer := text[FooterStart(text, windowSize)..];
    match FirstMatching(e, EndPatterns, footer, 0)
    case None => Mark(false, |text|, "")
    case Some(k) => Mark(true, |text| - windowSize + e(EndPatterns[k], footer)[0].start, EndPatterns[k].source)
  }

  /** `detectDocumentEnd` with the position measured from where the footer
      really starts, so that it always indexes the text. */
  function DetectDocumentEnd(e: Engine, text: string, windowSize: int): (r: Mark)
    ensures var footer := text[FooterStart(text, windowSize)..];
      && (r.found <==> AnyTest(e, EndPatterns, footer))
      && (!r.found ==> r.position == |text|)
      && (r.found ==> exists k :: (0 <= k < |EndPatterns| && Test(e, EndPatterns[k], footer)
                                   && (forall j :: 0 <= j < k ==> !Test(e, EndPatterns[j], footer))
                                   && r.pattern == EndPatterns[k].source
                                   && r.position == FooterStart(text, windowSize) + e(EndPatterns[k], footer)[0].start))
    ensures FooterStart(text, windowSize) <= r.position <= |text|
  {
    var start := FooterStart(text, windowSize);
    var footer := text[start..];
    match FirstMatching(e, EndPatterns, footer, 0)
    case None => Mark(false, |text|, "")
    case Some(k) => Mark(true, start + e(EndPatterns[k], footer)[0].start, EndPatterns[k].source)
  }

  /** Whenever the text is at least as long as the window, the formula as
      written agrees with the corrected one. */
  lemma {:induction false} DetectDocumentEndAgrees(e: Engine, text: string, windowSize: int)
    requires 0 <= windowSize <= |text|
    ensures DetectDocumentEndAsWritten(e, text, windowSize) == DetectDocumentEnd(e, text, windowSize)
  {
  }

  /** An engine under which every pattern matches the first character of any
      non-empty text. */
  function FirstChar(p: Pattern, s: string): (r: seq<Span>)
    ensures WellFormed(r, s)
  {
    if |s| > 0 then
      var r := [Span(0, 1, "")];
      assert r[1..] == [] && Ordered(r[1..], |s|, 1);
      assert Ordered(r, |s|, 0);
      r
    else []
  }

  function FirstCharEngine(): Engine {
    FirstChar
  }

  /** With the default window of 500 and a three-character text whose end
      is recognised, the position as written is -497: not an index of the text. */
  lemma DetectDocumentEndNegative()
    ensures DetectDocumentEndAsWritten(FirstCharEngine(), "abc", DefaultWindow).position == -497
    ensures DetectDocumentEnd(FirstCharEngine(), "abc", DefaultWindow).position == 0
  {
    var e := FirstCharEngine();
    assert Test(e, EndPatterns[0], "abc");
    assert FirstMatching(e, EndPatterns, "abc", 0) == Some(0);
  }

  // --------------------------------------------------------------- separation

  const SeparatorPatterns: seq<Pattern> := [
    Pattern("(?:^|\\n\\n)(?:excelent[íi]ssimo|il(?:ustr[íi]ssimo)?)\\s+senhor", "gim"),
    Pattern("(?:^|\\n\\n)(?:despacho|decis[ãa]o|senten[çc]a|ac[óo]rd[ãa]o)\\s*:", "gim"),
    Pattern("(?:^|\\n\\n)poder\\s+judici[áa]rio", "gim"),
    Pattern("(?:^|\\n\\n)\\d{7}-\\d{2}\\.\\d{4}\\.\\d\\.\\d{2}\\.\\d{4}", "gm")
  ]

  /** Separators closer than this to the last kept one are duplicates. */
  const Tolerance: nat := 50
  /** Separated documents must be longer than this once trimmed. */
  const MinDocumentLength: nat := 100

  function Starts(spans: seq<Span>): (r: seq<nat>)
    ensures |r| == |spans|
  {
    if |spans| == 0 then [] else [spans[0].start] + Starts(spans[1..])
  }

  lemma {:induction false} StartsBounded(spans: seq<Span>, n: nat, pos: nat)
    requires Ordered(spans, n, pos)
    ensures forall x :: x in Starts(spans) ==> pos <= x <= n
  {
    if |spans| > 0 {
      StartsBounded(spans[1..], n, spans[0].start + spans[0].len);
    }
  }

  /** Start of every match of every separator pattern, pattern by pattern
      (the `exec` loops). */
  function Candidates(e: Engine, ps: seq<Pattern>, text: string): (r: seq<nat>)
    ensures forall x :: x in r ==> x <= |text|
  {
    if |ps| == 0 then []
    else
      StartsBounded(e(ps[0], text), |text|, 0);
      Starts(e(ps[0], text)) + Candidates(e, ps[1..], text)
  }

  function Ascending(x: nat): int {
    x
  }

  lemma SameElements(a: seq<nat>, b: seq<nat>)
    requires multiset(a) == multiset(b)
    ensures forall x :: x in a ==> x in b
  {
    forall x | x in a ensures x in b {
      assert x in multiset(a);
    }
  }

  /** Candidate positions sorted ascending (`(a, b) => a.position - b.position`). */
  function SortedCandidates(e: Engine, text: string): (r: seq<nat>)
    ensures StableSort.SortedBy(r, Ascending)
    ensures multiset(r) == multiset(Candidates(e, SeparatorPatterns, text))
    ensures forall x :: x in r ==> x <= |text|
  {
    var c := Candidates(e, SeparatorPatterns, text);
    var r := StableSort.Sort(c, Ascending);
    SameElements(r, c);
    r
  }

  /** The deduplication loop as written: `lastPos` starts at -1, so a
      candidate is kept only when it lies more than 50 characters after the
      last kept one, and -1 counts as a kept position. */
  function DedupAsWritten(ps: seq<nat>, lastPos: int): (r: seq<nat>)
    ensures forall x :: x in r ==> x in ps && x - lastPos > Tolerance
  {
    if |ps| == 0 then []
    else if ps[0] - lastPos > Tolerance then [ps[0]] + DedupAsWritten(ps[1..], ps[0])
    else DedupAsWritten(ps[1..], lastPos)
  }

  /** The deduplication loop with "nothing kept yet" kept apart from a
      position: the first candidate is always kept. */
  function Dedup(ps: seq<nat>, last: Option<nat>): (r: seq<nat>)
    ensures forall x :: x in r ==> x in ps
    ensures |ps| > 0 && last.None? ==> |r| > 0 && r[0] == ps[0]
  {
    if |ps| == 0 then []
    else if last.None? || ps[0] - last.value > Tolerance then [ps[0]] + Dedup(ps[1..], Some(ps[0]))
    else Dedup(ps[1..], last)
  }

  /** Consecutive kept positions lie more than 50 characters apart. */
  predicate Spaced(r: seq<nat>) {
    forall i :: 0 <= i < |r| - 1 ==> r[i + 1] - r[i] > Tolerance
  }

  /** Facts about a sorted sequence and its tail. */
  lemma {:induction false} SortedTail(ps: seq<nat>)
    requires |ps| > 0 && StableSort.SortedBy(ps, Ascending)
    ensures StableSort.SortedBy(ps[1..], Ascending)
    ensures forall x :: x in ps[1..] ==> ps[0] <= x
    ensures forall x :: x in ps ==> x == ps[0] || x in ps[1..]
  {
    assert ps == [ps[0]] + ps[1..];
    forall x | x in ps[1..] ensures ps[0] <= x {
      var k :| 0 <= k < |ps[1..]| && ps[1..][k] == x;
      assert ps[k + 1] == x;
    }
  }

  /** On sorted candidates the kept positions are increasing and more than
      50 apart (and more than 50 after the last position kept before them). */
  lemma {:induction false} DedupSpaced(ps: seq<nat>, last: Option<nat>)
    requires StableSort.SortedBy(ps, Ascending)
    ensures var r := Dedup(ps, last);
      && Spaced(r)
      && (last.Some? && |r| > 0 ==> r[0] - last.value > Tolerance)
  {
    if |ps| > 0 {
      SortedTail(ps);
      var keep := last.None? || ps[0] - last.value > Tolerance;
      DedupSpaced(ps[1..], if keep then Some(ps[0]) else last);
    }
  }

  /** `x` lies at most 50 characters after `y`. */
  predicate Near(x: nat, y: nat) {
    y <= x <= y + Tolerance
  }

  /** Every candidate that is dropped lies within 50 characters after a kept
      one (or after the last position kept before `ps`). */
  lemma {:induction false} DedupCovers(ps: seq<nat>, last: Option<nat>)
    requires StableSort.SortedBy(ps, Ascending)
    requires last.Some? && |ps| > 0 ==> last.value <= ps[0]
    ensures var r := Dedup(ps, last);
      forall x :: x in ps && x !in r ==> (last.Some? && Near(x, last.value)) || exists y :: y in r && Near(x, y)
  {
    if |ps| > 0 {
      SortedTail(ps);
      var keep := last.None? || ps[0] - last.value > Tolerance;
      var next := if keep then Some(ps[0]) else last;
      DedupCovers(ps[1..], next);
      var r := Dedup(ps, last);
      var rt := Dedup(ps[1..], next);
      if keep {
        assert r == [ps[0]] + rt;
        DroppedAfterKept(ps[1..], rt, ps[0], r);
      } else {
        assert r == rt;
        assert Near(ps[0], last.value);
      }
    }
  }

  lemma DroppedAfterKept(tail: seq<nat>, rt: seq<nat>, first: nat, r: seq<nat>)
    requires r == [first] + rt
    requires forall x :: x in tail ==> first <= x
    requires forall x :: x in tail && x !in rt ==> Near(x, first) || exists y :: y in rt && Near(x, y)
    ensures forall x :: x in [first] + tail && x !in r ==> exists y :: y in r && Near(x, y)
  {
    forall x | x in [first] + tail && x !in r
      ensures exists y :: y in r && Near(x, y)
    {
      assert x != first && x in tail;
      if Near(x, first) {
        assert first in r;
      } else {
        var y :| y in rt && Near(x, y);
        assert y in r;
      }
    }
  }

  /** As written, no separator in the first 50 characters is ever kept. */
  lemma {:induction false} DedupAsWrittenSkipsStart(ps: seq<nat>)
    ensures forall x :: x in DedupAsWritten(ps, -1) ==> x >= Tolerance
  {
  }

  /** A text that opens with a separator and has a second one 120 characters
      later: as written only the second is kept, so everything before it is
      lost; corrected, both are kept. */
  lemma DedupFirstSeparatorLost()
    ensures DedupAsWritten([0, 120], -1) == [120]
    ensures Dedup([0, 120], None) == [0, 120]
  {
    assert [0, 120][1..] == [120];
  }

  /** How many leading candidates lie before position 50. */
  function Early(ps: seq<nat>): (k: nat)
    ensures k <= |ps|
    ensures forall i :: 0 <= i < k ==> ps[i] < Tolerance
    ensures k < |ps| ==> ps[k] >= Tolerance
  {
    if |ps| == 0 || ps[0] >= Tolerance then 0
    else
      var k := Early(ps[1..]);
      assert forall i :: 1 <= i < k + 1 ==> ps[i] == ps[1..][i - 1];
      k + 1
  }

  /** Once a position is kept, the loop as written and the corrected one agree. */
  lemma {:induction false} DedupAsWrittenFrom(ps: seq<nat>, last: nat)
    ensures DedupAsWritten(ps, last) == Dedup(ps, Some(last))
  {
    if |ps| > 0 {
      DedupAsWrittenFrom(ps[1..], ps[0]);
      DedupAsWrittenFrom(ps[1..], last);
    }
  }

  /** The loop as written is the corrected one applied after the leading
      candidates before position 50 are discarded. */
  lemma {:induction false} DedupAsWrittenSkips(ps: seq<nat>)
    ensures DedupAsWritten(ps, -1) == Dedup(ps[Early(ps)..], None)
  {
    if |ps| > 0 {
      if ps[0] >= Tolerance {
        DedupAsWrittenFrom(ps[1..], ps[0]);
        assert ps[0..] == ps;
      } else {
        DedupAsWrittenSkips(ps[1..]);
        assert ps[1..][Early(ps[1..])..] == ps[Early(ps)..];
      }
    }
  }

  lemma SortedSuffix(ps: seq<nat>, k: nat)
    requires k <= |ps| && StableSort.SortedBy(ps, Ascending)
    ensures StableSort.SortedBy(ps[k..], Ascending)
  {
    assert forall i :: 0 <= i < |ps[k..]| ==> ps[k..][i] == ps[k + i];
  }

  /** One separated document: its trimmed text, its analysis and the
      character range it was cut from. */
  datatype Piece = Piece(text: string, key: string, name: string, order: int, confidence: nat, start: nat, end: nat)

  function MakePiece(analyze: string -> Analysis, docText: string, start: nat, end: nat): Piece
  {
    var a := analyze(docText);
    Piece(docText, a.key, a.name, a.order, a.confidence, start, end)
  }

  /** End of the range opened by separator `i`: the next separator, or the end of the text. */
  function RangeEnd(seps: seq<nat>, i: nat, n: nat): nat
    requires i < |seps|
  {
    if i < |seps| - 1 then seps[i + 1] else n
  }

  /** The trimmed text of the range opened by separator `i`. */
  function RangeText(trim: string -> string, text: string, seps: seq<nat>, i: nat): string
    requires i < |seps|
  {
    trim(Substring(text, seps[i], RangeEnd(seps, i, |text|)))
  }

  /** The document cut at separator `i`, if its trimmed text is longer than 100 characters. */
  function PieceAt(analyze: string -> Analysis, trim: string -> string, text: string, seps: seq<nat>, i: nat): seq<Piece>
    requires i < |seps|
  {
    var docText := RangeText(trim, text, seps, i);
    if |docText| > MinDocumentLength then [MakePiece(analyze, docText, seps[i], RangeEnd(seps, i, |text|))] else []
  }

  /** The documents cut at separators `i` onwards; ranges whose trimmed text
      has at most 100 characters are dropped. */
  function PiecesFromSeparators(analyze: string -> Analysis, trim: string -> string, text: string, seps: seq<nat>, i: nat): seq<Piece>
    requires i <= |seps|
    decreases |seps| - i
  {
    if i == |seps| then []
    else PieceAt(analyze, trim, text, seps, i) + PiecesFromSeparators(analyze, trim, text, seps, i + 1)
  }

  /** The separators `separateDocuments` keeps: the deduplication loop as
      written, over the sorted candidates. */
  function Separators(e: Engine, text: string): seq<nat> {
    DedupAsWritten(SortedCandidates(e, text), -1)
  }

  /** The separators the corrected deduplication keeps. */
  function SeparatorsCorrected(e: Engine, text: string): seq<nat> {
    Dedup(SortedCandidates(e, text), None)
  }

  /** The documents cut at the kept separators `seps`: one document spanning
      the whole text when there are none, else the ranges they open. */
  function SeparateFrom(analyze: string -> Analysis, trim: string -> string, fullText: string, seps: seq<nat>): seq<Piece>
  {
    if |seps| == 0 then [MakePiece(analyze, fullText, 0, |fullText|)]
    else PiecesFromSeparators(analyze, trim, fullText, seps, 0)
  }

  /** `separateDocuments` with a given analysis of each document. */
  function SeparateWith(e: Engine, analyze: string -> Analysis, trim: string -> string, fullText: string): (r: seq<Piece>)
    ensures |Separators(e, fullText)| == 0 ==> r == [MakePiece(analyze, fullText, 0, |fullText|)]
  {
    SeparateFrom(analyze, trim, fullText, Separators(e, fullText))
  }

  /** `separateDocuments`. */
  function SeparateDocuments(e: Engine, fullText: string): seq<Piece> {
    SeparateWith(e, t => AnalyzeDocument(e, t), TrimJs, fullText)
  }

  /** `separateDocuments` with the corrected deduplication. */
  function SeparateCorrectedWith(e: Engine, analyze: string -> Analysis, trim: string -> string, fullText: string): (r: seq<Piece>)
    ensures |SeparatorsCorrected(e, fullText)| == 0 ==> r == [MakePiece(analyze, fullText, 0, |fullText|)]
  {
    SeparateFrom(analyze, trim, fullText, SeparatorsCorrected(e, fullText))
  }

  function SeparateDocumentsCorrected(e: Engine, fullText: string): seq<Piece> {
    SeparateCorrectedWith(e, t => AnalyzeDocument(e, t), TrimJs, fullText)
  }

  /** Trimming never lengthens a text (as `String.prototype.trim` does not). */
  ghost predicate Shrinks(trim: string -> string) {
    forall s :: |trim(s)| <= |s|
  }

  lemma TrimJsShrinks()
    ensures Shrinks(TrimJs)
  {
  }

  /** Separators are increasing, more than 50 apart, within the text. */
  predicate GoodSeparators(seps: seq<nat>, n: nat) {
    Spaced(seps) && forall x :: x in seps ==> x <= n
  }

  /** The kind, name, order and confidence of a document are those of the analysis of its text. */
  predicate Analysed(analyze: string -> Analysis, d: Piece) {
    var a := analyze(d.text);
    d.key == a.key && d.name == a.name && d.order == a.order && d.confidence == a.confidence
  }

  /** A document carries the analysis of its own text; it is the trimmed
      text of the range between two consecutive kept separators (or the last
      one and the end of the text), and longer than 100 characters. */
  predicate GoodPiece(analyze: string -> Analysis, trim: string -> string, text: string, seps: seq<nat>, d: Piece)
  {
    && Analysed(analyze, d)
    && d.start < d.end <= |text|
    && (exists i :: 0 <= i < |seps| && d.start == seps[i] && d.end == RangeEnd(seps, i, |text|))
    && d.text == trim(text[d.start..d.end])
    && |d.text| > MinDocumentLength
  }

  /** Good documents, in text order, without overlapping. */
  predicate WellCut(analyze: string -> Analysis, trim: string -> string, text: string, seps: seq<nat>, ds: seq<Piece>)
  {
    AllGood(analyze, trim, text, seps, ds) && InOrder(ds)
  }

  predicate AllGood(analyze: string -> Analysis, trim: string -> string, text: string, seps: seq<nat>, ds: seq<Piece>)
  {
    forall k :: 0 <= k < |ds| ==> GoodPiece(analyze, trim, text, seps, ds[k])
  }

  /** Each document ends where or before the next one starts. */
  predicate InOrder(ds: seq<Piece>) {
    forall k :: 0 <= k < |ds| - 1 ==> ds[k].end <= ds[k + 1].start
  }

  lemma {:induction false} SpacedOrder(seps: seq<nat>, i: nat, j: nat)
    requires Spaced(seps) && i < j < |seps|
    ensures seps[i] + Tolerance < seps[j]
    decreases j - i
  {
    if j > i + 1 {
      SpacedOrder(seps, i + 1, j);
    }
  }

  /** The document cut at separator `i`, if any, spans the range `i` opens. */
  lemma PieceAtSpan(analyze: string -> Analysis, trim: string -> string, text: string, seps: seq<nat>, i: nat)
    requires i < |seps|
    ensures var p := PieceAt(analyze, trim, text, seps, i);
      && |p| <= 1
      && (|p| == 1 ==> p[0].start == seps[i] && p[0].end == RangeEnd(seps, i, |text|))
  {
    var p := PieceAt(analyze, trim, text, seps, i);
    if |p| == 1 {
      assert p[0] == MakePiece(analyze, RangeText(trim, text, seps, i), seps[i], RangeEnd(seps, i, |text|));
    }
  }

  /** The document cut at separator `i`, if any, is good. */
  lemma PieceAtGood(analyze: string -> Analysis, trim: string -> string, text: string, seps: seq<nat>, i: nat)
    requires i < |seps| && GoodSeparators(seps, |text|) && Shrinks(trim)
    ensures AllGood(analyze, trim, text, seps, PieceAt(analyze, trim, text, seps, i))
  {
    var p := PieceAt(analyze, trim, text, seps, i);
    var end := RangeEnd(seps, i, |text|);
    assert seps[i] in seps;
    if i < |seps| - 1 {
      assert seps[i + 1] in seps;
      SpacedOrder(seps, i, i + 1);
    }
    assert seps[i] <= end <= |text|;
    assert Substring(text, seps[i], end) == text[seps[i]..end];
    if |p| == 1 {
      assert |RangeText(trim, text, seps, i)| > MinDocumentLength;
      assert p[0] == MakePiece(analyze, RangeText(trim, text, seps, i), seps[i], end);
      assert GoodPiece(analyze, trim, text, seps, p[0]);
    }
  }

  lemma AllGoodAppend(analyze: string -> Analysis, trim: string -> string, text: string, seps: seq<nat>, a: seq<Piece>, b: seq<Piece>)
    requires AllGood(analyze, trim, text, seps, a) && AllGood(analyze, trim, text, seps, b)
    ensures AllGood(analyze, trim, text, seps, a + b)
  {
    forall k | 0 <= k < |a + b| ensures GoodPiece(analyze, trim, text, seps, (a + b)[k]) {
      if k < |a| {
        assert (a + b)[k] == a[k];
      } else {
        assert (a + b)[k] == b[k - |a|];
      }
    }
  }

  /** At most one document, followed by documents in order that start after it. */
  lemma InOrderJoin(p: seq<Piece>, rest: seq<Piece>)
    requires |p| <= 1 && InOrder(rest)
    requires |p| == 1 ==> forall k :: 0 <= k < |rest| ==> rest[k].start >= p[0].end
    ensures InOrder(p + rest)
  {
    var ds := p + rest;
    forall k | 0 <= k < |ds| - 1 ensures ds[k].end <= ds[k + 1].start {
      if |p| == 1 {
        assert ds[k + 1] == rest[k];
        if k > 0 {
          assert ds[k] == rest[k - 1];
        }
      } else {
        assert ds[k] == rest[k] && ds[k + 1] == rest[k + 1];
      }
    }
  }

  /** Every document cut from separator `i` onwards starts at or after it. */
  lemma {:induction false} PiecesAfter(analyze: string -> Analysis, trim: string -> string, text: string, seps: seq<nat>, i: nat)
    requires i < |seps| && Spaced(seps)
    ensures forall k :: 0 <= k < |PiecesFromSeparators(analyze, trim, text, seps, i)| ==>
      PiecesFromSeparators(analyze, trim, text, seps, i)[k].start >= seps[i]
    decreases |seps| - i
  {
    var ds := PiecesFromSeparators(analyze, trim, text, seps, i);
    var p := PieceAt(analyze, trim, text, seps, i);
    var rest := PiecesFromSeparators(analyze, trim, text, seps, i + 1);
    assert ds == p + rest;
    PieceAtSpan(analyze, trim, text, seps, i);
    if i + 1 < |seps| {
      PiecesAfter(analyze, trim, text, seps, i + 1);
      SpacedOrder(seps, i, i + 1);
    } else {
      assert rest == [];
    }
    forall k | 0 <= k < |ds| ensures ds[k].start >= seps[i] {
      if k < |p| {
        assert ds[k] == p[0];
      } else {
        assert ds[k] == rest[k - |p|];
      }
    }
  }

  lemma {:induction false} PiecesGood(analyze: string -> Analysis, trim: string -> string, text: string, seps: seq<nat>, i: nat)
    requires i <= |seps| && GoodSeparators(seps, |text|) && Shrinks(trim)
    ensures AllGood(analyze, trim, text, seps, PiecesFromSeparators(analyze, trim, text, seps, i))
    decreases |seps| - i
  {
    if i < |seps| {
      var p := PieceAt(analyze, trim, text, seps, i);
      var rest := PiecesFromSeparators(analyze, trim, text, seps, i + 1);
      assert PiecesFromSeparators(analyze, trim, text, seps, i) == p + rest;
      PiecesGood(analyze, trim, text, seps, i + 1);
      PieceAtGood(analyze, trim, text, seps, i);
      AllGoodAppend(analyze, trim, text, seps, p, rest);
    }
  }

  lemma {:induction false} PiecesInOrder(analyze: string -> Analysis, trim: string -> string, text: string, seps: seq<nat>, i: nat)
    requires i <= |seps| && Spaced(seps)
    ensures InOrder(PiecesFromSeparators(analyze, trim, text, seps, i))
    decreases |seps| - i
  {
    if i < |seps| {
      var p := PieceAt(analyze, trim, text, seps, i);
      var rest := PiecesFromSeparators(analyze, trim, text, seps, i + 1);
      assert PiecesFromSeparators(analyze, trim, text, seps, i) == p + rest;
      PiecesInOrder(analyze, trim, text, seps, i + 1);
      PieceAtSpan(analyze, trim, text, seps, i);
      if i + 1 < |seps| {
        PiecesAfter(analyze, trim, text, seps, i + 1);
      } else {
        assert rest == [];
      }
      InOrderJoin(p, rest);
    }
  }

  /** Documents cut at spaced separators inside the text are cut well:
      with none, one document spans the whole text; otherwise each document
      is the trimmed range between consecutive separators, longer than 100
      characters, in order, and none starts before the first separator. */
  lemma SeparateFromShape(analyze: string -> Analysis, trim: string -> string, text: string, seps: seq<nat>)
    requires Shrinks(trim) && GoodSeparators(seps, |text|)
    ensures var ds := SeparateFrom(analyze, trim, text, seps);
      && (|seps| == 0 ==> ds == [MakePiece(analyze, text, 0, |text|)])
      && (|seps| > 0 ==> WellCut(analyze, trim, text, seps, ds) && forall k :: 0 <= k < |ds| ==> ds[k].start >= seps[0])
  {
    if |seps| > 0 {
      PiecesGood(analyze, trim, text, seps, 0);
      PiecesInOrder(analyze, trim, text, seps, 0);
      PiecesAfter(analyze, trim, text, seps, 0);
    }
  }

  /** The separators `separateDocuments` keeps are the corrected ones after
      the candidates before position 50 are discarded: they are spaced and
      inside the text, there are none exactly when every candidate lies
      before position 50, and otherwise the first is the first candidate at
      or after 50. */
  lemma SeparatorsShape(e: Engine, text: string)
    ensures var c := SortedCandidates(e, text);
      var seps := Separators(e, text);
      && GoodSeparators(seps, |text|)
      && (|seps| == 0 <==> forall i :: 0 <= i < |c| ==> c[i] < Tolerance)
      && (|seps| > 0 ==> seps[0] >= Tolerance && forall i :: 0 <= i < |c| && c[i] < seps[0] ==> c[i] < Tolerance)
  {
    var c := SortedCandidates(e, text);
    var k := Early(c);
    DedupAsWrittenSkips(c);
    SortedSuffix(c, k);
    DedupSpaced(c[k..], None);
    var seps := Separators(e, text);
    assert forall x :: x in seps ==> x in c[k..];
    if k < |c| {
      assert c[k..][0] == c[k];
    }
  }

  /** `separateDocuments` as written: with JavaScript's trim, when every
      candidate lies before position 50 one document spans the whole text;
      otherwise the documents are cut well from the kept separators, the
      first of which is the first candidate at or after 50, so the text
      before it belongs to no document. */
  lemma SeparateJsShape(e: Engine, analyze: string -> Analysis, fullText: string)
    ensures var c := SortedCandidates(e, fullText);
      var seps := Separators(e, fullText);
      var ds := SeparateWith(e, analyze, TrimJs, fullText);
      && GoodSeparators(seps, |fullText|)
      && ((forall i :: 0 <= i < |c| ==> c[i] < Tolerance) ==> ds == [MakePiece(analyze, fullText, 0, |fullText|)])
      && (|seps| > 0 ==> && seps[0] >= Tolerance
                         && WellCut(analyze, TrimJs, fullText, seps, ds)
                         && forall k :: 0 <= k < |ds| ==> ds[k].start >= seps[0])
  {
    TrimJsShrinks();
    SeparatorsShape(e, fullText);
    SeparateFromShape(analyze, TrimJs, fullText, Separators(e, fullText));
  }

  /** With any trimming that never lengthens, the documents of
      `separateDocuments` are cut well from the kept separators. */
  lemma SeparateShape(e: Engine, analyze: string -> Analysis, trim: string -> string, fullText: string)
    requires Shrinks(trim)
    ensures var seps := Separators(e, fullText);
      var ds := SeparateWith(e, analyze, trim, fullText);
      && GoodSeparators(seps, |fullText|)
      && (|seps| > 0 ==> WellCut(analyze, trim, fullText, seps, ds) && forall k :: 0 <= k < |ds| ==> ds[k].start >= seps[0])
  {
    SeparatorsShape(e, fullText);
    SeparateFromShape(analyze, trim, fullText, Separators(e, fullText));
  }

  /** With the corrected deduplication, there is no separator only when
      there is no candidate at all, the first candidate always opens the
      first document's range, and every dropped candidate lies within 50
      characters after a kept separator. */
  lemma SeparateCorrectedShape(e: Engine, analyze: string -> Analysis, fullText: string)
    ensures var c := SortedCandidates(e, fullText);
      var seps := SeparatorsCorrected(e, fullText);
      var ds := SeparateCorrectedWith(e, analyze, TrimJs, fullText);
      && GoodSeparators(seps, |fullText|)
      && (|seps| == 0 <==> |c| == 0)
      && (|c| == 0 ==> ds == [MakePiece(analyze, fullText, 0, |fullText|)])
      && (|seps| > 0 ==> seps[0] == c[0] && WellCut(analyze, TrimJs, fullText, seps, ds))
      && (forall x :: x in c && x !in seps ==> exists y :: y in seps && Near(x, y))
  {
    var c := SortedCandidates(e, fullText);
    DedupSpaced(c, None);
    DedupCovers(c, None);
    TrimJsShrinks();
    var seps := SeparatorsCorrected(e, fullText);
    assert forall x :: x in seps ==> x in c;
    SeparateFromShape(analyze, TrimJs, fullText, seps);
  }
}
