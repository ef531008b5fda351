/** Fingerprinting of the electronic filing system that produced a case file
    (modules/judicial-system-detector.js): every system counts how many of
    its signature patterns occur; a system that reaches its minimum scores a
    confidence between 40 and 100; the best system wins with ties going to
    the system declared first; when none reaches its minimum, two or more
    ICP-Brasil certificate patterns make the file a generic judicial one. */
module JudicialSystemDetector {
  import opened Wrappers
  import opened Regex
  import opened Seqs
  import StableSort

  /** One system of the pattern table. */
  datatype SystemConfig = SystemConfig(code: string, name: string, priority: nat,
                                       signatures: seq<Pattern>, minMatches: nat, description: string)

  /** The systems in declaration order (`Object.entries` order). */
  const Systems: seq<SystemConfig> := [
    SystemConfig("STF", "STF (Supremo Tribunal Federal)", 1, StfSignatures, 2,
                 "PDF gerado pelo sistema e-STF com assinatura PKCS7 e marca d'água com CPF"),
    SystemConfig("STJ", "STJ (Superior Tribunal de Justiça)", 1, StjSignatures, 2,
                 "PDF gerado pelo sistema e-STJ com múltiplos elementos de validação"),
    SystemConfig("PJE", "PJE (Processo Judicial Eletrônico)", 2, PjeSignatures, 2,
                 "PDF gerado pelo PJE com códigos alfanuméricos e timestamps repetitivos"),
    SystemConfig("ESAJ", "ESAJ (Sistema de Automação da Justiça)", 2, EsajSignatures, 2,
                 "PDF gerado pelo ESAJ com selo lateral vertical e QR codes"),
    SystemConfig("EPROC", "EPROC (Sistema de Processo Eletrônico)", 2, EprocSignatures, 2,
                 "PDF gerado pelo EPROC com assinatura destacada (arquivo .p7s separado)"),
    SystemConfig("PROJUDI", "PROJUDI (Processo Judicial Digital)", 3, ProjudiSignatures, 2,
                 "PDF gerado pelo PROJUDI com variações regionais significativas")
  ]

  const StfSignatures: seq<Pattern> := [
    Pattern("supremo\\s+tribunal\\s+federal", "i"),
    Pattern("e-stf", "i"),
    Pattern("portal\\.stf\\.jus\\.br", "i"),
    Pattern("peticionamento\\s+eletr[oô]nico\\s+stf", "i"),
    Pattern("resolu[cç][aã]o\\s+stf\\s+693", "i"),
    Pattern("pkcs\\s*[#]?\\s*7", "i"),
    Pattern("projeto\\s+victor", "i")
  ]

  const StjSignatures: seq<Pattern> := [
    Pattern("superior\\s+tribunal\\s+de\\s+justi[cç]a", "i"),
    Pattern("e-stj", "i"),
    Pattern("www\\.stj\\.jus\\.br", "i"),
    Pattern("central\\s+do\\s+processo\\s+eletr[oô]nico", "i"),
    Pattern("resolu[cç][aã]o\\s+stj\\/gp\\s+10", "i"),
    Pattern("autentique\\s+em:\\s*https?:\\/\\/www\\.stj\\.jus\\.br\\/validar", "i")
  ]

  const PjeSignatures: seq<Pattern> := [
    Pattern("processo\\s+judicial\\s+eletr[oô]nico", "i"),
    Pattern("\\bpje\\b", "i"),
    Pattern("resolu[cç][aã]o\\s+cnj\\s+281", "i"),
    Pattern("documento\\s+assinado\\s+por.*e\\s+certificado\\s+digitalmente\\s+por", "i"),
    Pattern("c[oó]digo\\s+de\\s+verifica[cç][aã]o:\\s*[A-Z0-9]{4}\\.[0-9]{4}\\.[0-9]X{2}[0-9]\\.[X0-9]{4}", "i"),
    Pattern("este\\s+documento\\s+foi\\s+gerado\\s+pelo\\s+usu[aá]rio\\s+\\d{3}\\.\\d{3}\\.\\d{3}-\\d{2}", "i"),
    Pattern("trt\\d+\\.jus\\.br\\/pje", "i"),
    Pattern("trf\\d+\\.jus\\.br\\/pje", "i")
  ]

  const EsajSignatures: seq<Pattern> := [
    Pattern("e-saj", "i"),
    Pattern("\\besaj\\b", "i"),
    Pattern("softplan", "i"),
    Pattern("portal\\s+e-saj", "i"),
    Pattern("confer[eê]ncia\\s+de\\s+documento\\s+digital", "i"),
    Pattern("tjsp\\.jus\\.br.*esaj", "i"),
    Pattern("tjce\\.jus\\.br.*esaj", "i"),
    Pattern("tjam\\.jus\\.br.*esaj", "i"),
    Pattern("tjms\\.jus\\.br.*esaj", "i"),
    Pattern("resolu[cç][aã]o\\s+.*552\\/11", "i")
  ]

  const EprocSignatures: seq<Pattern> := [
    Pattern("\\beproc\\b", "i"),
    Pattern("sistema\\s+de\\s+processo\\s+eletr[oô]nico", "i"),
    Pattern("trf4\\.jus\\.br.*eproc", "i"),
    Pattern("trf2\\.jus\\.br.*eproc", "i"),
    Pattern("trf6\\.jus\\.br.*eproc", "i"),
    Pattern("tjrs\\.jus\\.br.*eproc", "i"),
    Pattern("tjsc\\.jus\\.br.*eproc", "i"),
    Pattern("\\.p7s", "i"),
    Pattern("cades", "i"),
    Pattern("assinatura\\s+destacada", "i")
  ]

  const ProjudiSignatures: seq<Pattern> := [
    Pattern("projudi", "i"),
    Pattern("processo\\s+judicial\\s+digital", "i"),
    Pattern("tjba\\.jus\\.br.*projudi", "i"),
    Pattern("tjce\\.jus\\.br.*projudi", "i"),
    Pattern("tjpr\\.jus\\.br.*projudi", "i"),
    Pattern("tjmg\\.jus\\.br.*projudi", "i"),
    Pattern("vers[aã]o\\s+1\\.\\d+", "i"),
    Pattern("assinador\\s+livre", "i"),
    Pattern("universidade\\s+federal\\s+de\\s+campina\\s+grande", "i")
  ]

  /** Certificate patterns that identify no particular system. */
  const IcpBrasilPatterns: seq<Pattern> := [
    Pattern("icp-brasil", "i"),
    Pattern("certificado\\s+digital", "i"),
    Pattern("assinado\\s+digitalmente", "i"),
    Pattern("pades|cades|xades", "i"),
    Pattern("ac\\s+[a-z]+", "i"),
    Pattern("iti\\s+-\\s+instituto\\s+nacional\\s+de\\s+tecnologia\\s+da\\s+informa[cç][aã]o", "i")
  ]

  /** Texts shorter than this are not analysed. */
  const MinTextLength: nat := 100

  /** Confidence a system must reach to be reported. */
  const Threshold: nat := 40

  /** Certificate patterns needed for the generic outcome. */
  const MinIcpMatches: nat := 2

  const Unknown: string := "UNKNOWN"
  const Generic: string := "GENERIC_JUDICIAL"

  // --------------------------------------------------------------- confidence

  /** 40 plus 60 times the share of matching signatures. */
  function Base(m: nat, total: nat): (r: real)
    requires total > 0
    ensures r >= 40.0
    ensures m <= total ==> r <= 100.0
  {
    40.0 + (m as real / total as real) * 60.0
  }

  /** The priority bonus: 10 more for a priority-1 system, capped at 100. */
  function Ranked(priority: nat, x: real): (r: real)
    ensures r >= RMin(x, 100.0)
    ensures x <= 100.0 ==> r <= 100.0
  {
    if priority == 1 then RMin(100.0, x + 10.0) else x
  }

  /** The bonus of 5 per match above the minimum, capped at 100. */
  function Extra(m: nat, minMatches: nat, x: real): (r: real)
    ensures r >= RMin(x, 100.0)
    ensures x <= 100.0 ==> r <= 100.0
  {
    if m > minMatches then RMin(100.0, x + (m - minMatches) as real * 5.0) else x
  }

  /** The confidence of a system with `m` matching signatures: nothing below
      the minimum; otherwise 40 plus 60 times the share of matching
      signatures, 10 more for a priority-1 system and 5 more per match above
      the minimum, each bonus capped at 100, then rounded. */
  function Confidence(c: SystemConfig, m: nat): (r: nat)
    requires |c.signatures| > 0
    ensures m < c.minMatches ==> r == 0
    ensures m >= c.minMatches ==> r >= Threshold
    ensures m <= |c.signatures| ==> r <= 100
  {
    if m < c.minMatches then 0
    else Round(Extra(m, c.minMatches, Ranked(c.priority, Base(m, |c.signatures|))))
  }

  lemma RoundMonotone(a: real, b: real)
    requires a <= b
    ensures Round(a) <= Round(b)
  {
  }

  lemma BaseMonotone(m1: nat, m2: nat, total: nat)
    requires 0 < total && m1 <= m2
    ensures Base(m1, total) <= Base(m2, total)
  {
    assert m1 as real / total as real <= m2 as real / total as real;
  }

  lemma ExtraMonotone(m1: nat, m2: nat, minMatches: nat, x1: real, x2: real)
    requires m1 <= m2 && x1 <= x2 && x1 <= 100.0
    ensures Extra(m1, minMatches, x1) <= Extra(m2, minMatches, x2)
  {
  }

  /** More matching signatures (up to all of them) never lower a system's confidence. */
  lemma {:induction false} ConfidenceMonotone(c: SystemConfig, m1: nat, m2: nat)
    requires |c.signatures| > 0 && m1 <= m2 <= |c.signatures|
    ensures Confidence(c, m1) <= Confidence(c, m2)
  {
    if m1 >= c.minMatches {
      var t := |c.signatures|;
      BaseMonotone(m1, m2, t);
      var r1 := Ranked(c.priority, Base(m1, t));
      var r2 := Ranked(c.priority, Base(m2, t));
      assert r1 <= r2 && r1 <= 100.0;
      ExtraMonotone(m1, m2, c.minMatches, r1, r2);
      RoundMonotone(Extra(m1, c.minMatches, r1), Extra(m2, c.minMatches, r2));
    }
  }

  // ---------------------------------------------------------------- detection

  /** One entry of the per-system results. */
  datatype SystemScore = SystemScore(system: string, name: string, confidence: nat,
                                     matches: nat, totalPatterns: nat, description: string)

  /** Systems that can be scored: each has signatures, and no code collides
      with the two fallback outcomes. */
  predicate ValidSystems(systems: seq<SystemConfig>) {
    && |systems| > 0
    && forall j :: 0 <= j < |systems| ==>
         |systems[j].signatures| > 0 && systems[j].code != Unknown && systems[j].code != Generic
  }

  function ScoreSystem(e: Engine, c: SystemConfig, text: string): (r: SystemScore)
    requires |c.signatures| > 0
    ensures r.system == c.code && r.totalPatterns == |c.signatures|
    ensures r.matches == CountTests(e, c.signatures, text) <= r.totalPatterns
    ensures r.confidence == Confidence(c, r.matches) <= 100
  {
    var m := CountTests(e, c.signatures, text);
    SystemScore(c.code, c.name, Confidence(c, m), m, |c.signatures|, c.description)
  }

  function ScoreSystems(e: Engine, systems: seq<SystemConfig>, text: string): (r: seq<SystemScore>)
    requires ValidSystems(systems)
    ensures |r| == |systems|
    ensures forall i :: 0 <= i < |r| ==> r[i] == ScoreSystem(e, systems[i], text)
  {
    seq(|systems|, i requires 0 <= i < |systems| => ScoreSystem(e, systems[i], text))
  }

  /** Sort key of `(a, b) => b.confidence - a.confidence`: descending confidence. */
  function Descending(x: SystemScore): int {
    -(x.confidence as int)
  }

  /** The outcome: the system code, its name (absent for a text too short to
      analyse), the confidence, the certificate matches counted on the
      fallback path, and the per-system results reported with it. */
  datatype Detection = Detection(system: string, name: Option<string>, confidence: nat,
                                 icpMatches: Option<nat>, results: seq<SystemScore>)

  /** `detectSystem` over a table of systems and certificate patterns. */
  function DetectWith(e: Engine, systems: seq<SystemConfig>, icp: seq<Pattern>, text: string): (r: Detection)
    requires ValidSystems(systems)
    ensures |text| < MinTextLength ==> r.system == Unknown && r.confidence == 0 && r.results == []
    ensures r.confidence <= 100
  {
    if |text| < MinTextLength then Detection(Unknown, None, 0, None, [])
    else
      var sorted := StableSort.Sort(ScoreSystems(e, systems, text), Descending);
      var top := sorted[0];
      assert top in multiset(sorted);
      if top.confidence < Threshold then
        var icpMatches := CountTests(e, icp, text);
        if icpMatches >= MinIcpMatches then
          Detection(Generic, Some("Sistema Judicial Genérico (ICP-Brasil)"), 50, Some(icpMatches), sorted)
        else
          Detection(Unknown, Some("Sistema Desconhecido"), 0, None, sorted)
      else
        Detection(top.system, Some(top.name), top.confidence, None, Take(sorted, 3))
  }

  /** `detectSystem`. */
  function DetectSystem(e: Engine, text: string): Detection
  {
    SystemsValid();
    DetectWith(e, Systems, IcpBrasilPatterns, text)
  }

  lemma SystemsValid()
    ensures ValidSystems(Systems)
    ensures forall j :: 0 <= j < |Systems| ==> Systems[j].minMatches > 0
    ensures forall i, j :: 0 <= i < j < |Systems| ==> Systems[i].code != Systems[j].code
  {
  }

  /** System `i` has the highest confidence, and every system declared before it a lower one. */
  predicate BestAt(rs: seq<SystemScore>, i: nat)
    requires i < |rs|
  {
    && (forall j :: 0 <= j < |rs| ==> rs[j].confidence <= rs[i].confidence)
    && (forall j :: 0 <= j < i ==> rs[j].confidence < rs[i].confidence)
  }

  /** A system reaches its minimum number of matching signatures. */
  predicate Reached(e: Engine, c: SystemConfig, text: string) {
    CountTests(e, c.signatures, text) >= c.minMatches
  }

  /** For a text long enough to analyse, the fallback is taken exactly when
      no system reaches its minimum; it is the generic outcome at 50 exactly
      when two or more certificate patterns match, the unknown one at 0
      otherwise. Otherwise the winner is a system with the highest
      confidence, the first declared among equals, reported with its own
      confidence, which lies between 40 and 100. */
  lemma {:induction false} DetectOutcome(e: Engine, systems: seq<SystemConfig>, icp: seq<Pattern>, text: string)
    requires ValidSystems(systems) && |text| >= MinTextLength
    ensures var r := DetectWith(e, systems, icp, text);
      var rs := ScoreSystems(e, systems, text);
      && (r.system == Unknown || r.system == Generic <==> forall j :: 0 <= j < |systems| ==> !Reached(e, systems[j], text))
      && (r.system == Generic <==> r.system != Unknown && CountTests(e, icp, text) >= MinIcpMatches
                                   && forall j :: 0 <= j < |systems| ==> !Reached(e, systems[j], text))
      && (r.system == Generic ==> r.confidence == 50)
      && (r.system == Unknown ==> r.confidence == 0)
      && (r.system != Unknown && r.system != Generic ==>
            Threshold <= r.confidence <= 100
            && exists i :: 0 <= i < |rs| && BestAt(rs, i) && r.system == systems[i].code && r.confidence == rs[i].confidence)
  {
    var rs := ScoreSystems(e, systems, text);
    var sorted := StableSort.Sort(rs, Descending);
    StableSort.SortHead(rs, Descending);
    var i := StableSort.ArgMin(rs, Descending);
    assert sorted[0] == rs[i];
    assert BestAt(rs, i);
    var r := DetectWith(e, systems, icp, text);
    if rs[i].confidence < Threshold {
      forall j | 0 <= j < |systems| ensures !Reached(e, systems[j], text) {
        assert rs[j] == ScoreSystem(e, systems[j], text);
      }
    } else {
      assert Reached(e, systems[i], text);
      assert r.system == systems[i].code;
    }
  }
}
