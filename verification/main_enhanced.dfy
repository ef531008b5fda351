/** The single-page cleaner (modules/main-enhanced.js): detection of the
    filing system by counting signature occurrences, whitespace
    normalisation, the line filter of `Cleaner.clean` with its mode table,
    and the paragraph joining of `Cleaner.joinPages`. */
module MainEnhanced {
  import opened Wrappers
  import opened Seqs
  import opened Strings
  import opened Regex
  import CaseMap
  import StableSort

  // ===== Filing systems =====

  /** One entry of `SYSTEM_PATTERNS`: its key, display name and signatures. */
  datatype SystemEntry = SystemEntry(key: string, name: string, signatures: seq<Pattern>)

  /** The entries in declaration order, which is the order `Object.entries` visits. */
  const SystemPatterns: seq<SystemEntry> := [
    SystemEntry("eproc", "E-PROC (TRF)", EprocSignatures),
    SystemEntry("esaj", "E-SAJ (TJSP)", EsajSignatures),
    SystemEntry("pje", "PJE (CNJ)", PjeSignatures),
    SystemEntry("projudi", "PROJUDI", ProjudiSignatures),
    SystemEntry("stf", "STF", StfSignatures),
    SystemEntry("stj", "STJ", StjSignatures)
  ]

  const EprocSignatures: seq<Pattern> := [
    Pattern("\\bAssinado eletronicamente por[^\\n]{0,100}\\bem\\s+\\d{2}\\/\\d{2}\\/\\d{4}", "gi"),
    Pattern("\\be-Proc\\b", "gi"),
    Pattern("\\bTribunal Regional Federal", "gi"),
    Pattern("\\bVerifique a assinatura digital em[^\\n]{0,150}", "gi")
  ]

  const EsajSignatures: seq<Pattern> := [
    Pattern("\\bE-SAJ\\b", "gi"),
    Pattern("\\bTribunal de Justi[çc]a do Estado de S[ãa]o Paulo", "gi"),
    Pattern("\\bForo (?:Central|Regional)[^\\n]{0,100}", "gi"),
    Pattern("\\bAssinado digitalmente[^\\n]{0,100}e-SAJ", "gi"),
    Pattern("\\bC[óo]digo para valida[çc][ãa]o[:\\s]*[A-Z0-9]{10,}", "gi")
  ]

  const PjeSignatures: seq<Pattern> := [
    Pattern("\\bPJe\\b", "gi"),
    Pattern("\\bProcesso Judicial Eletr[ôo]nico", "gi"),
    Pattern("\\bAssinado eletronicamente por[^\\n]{0,100}PJe", "gi"),
    Pattern("\\bC[óo]digo Verificador[:\\s]*[A-Z0-9]{8,}", "gi"),
    Pattern("\\bAssinatura digital conforme[^\\n]{0,100}PJe", "gi")
  ]

  const ProjudiSignatures: seq<Pattern> := [
    Pattern("\\bPROJUDI\\b", "gi"),
    Pattern("\\bSistema de Processo Judicial Digital", "gi"),
    Pattern("\\bAssinado digitalmente[^\\n]{0,100}PROJUDI", "gi")
  ]

  const StfSignatures: seq<Pattern> := [
    Pattern("\\bSupremo Tribunal Federal\\b", "gi"),
    Pattern("\\bSTF\\b", "g"),
    Pattern("\\bPra[çc]a dos Tr[êe]s Poderes", "gi"),
    Pattern("\\bAssinado digitalmente[^\\n]{0,100}STF", "gi")
  ]

  const StjSignatures: seq<Pattern> := [
    Pattern("\\bSuperior Tribunal de Justi[çc]a\\b", "gi"),
    Pattern("\\bSTJ\\b", "g"),
    Pattern("\\bAssinado digitalmente[^\\n]{0,100}STJ", "gi")
  ]

  /** The answer when no system is recognised, and the option value meaning "any system". */
  const Auto := "auto"

  /** Total number of matches of the patterns in the text: with the global
      flag `text.match(re)` returns every match, or null when there is none. */
  function Occurrences(e: Engine, ps: seq<Pattern>, text: string): (r: nat)
    ensures r >= CountTests(e, ps, text)
    ensures r == 0 <==> !AnyTest(e, ps, text)
  {
    if |ps| == 0 then 0
    else
      assert forall i :: 1 <= i < |ps| ==> ps[i] == ps[1..][i - 1];
      assert AnyTest(e, ps[1..], text) ==> AnyTest(e, ps, text);
      |e(ps[0], text)| + Occurrences(e, ps[1..], text)
  }

  /** A system key with its occurrence count. */
  datatype Score = Score(key: string, score: nat)

  function Scores(e: Engine, table: seq<SystemEntry>, text: string): (r: seq<Score>)
    ensures |r| == |table|
    ensures forall i :: 0 <= i < |r| ==> r[i] == Score(table[i].key, Occurrences(e, table[i].signatures, text))
  {
    seq(|table|, i requires 0 <= i < |table| => Score(table[i].key, Occurrences(e, table[i].signatures, text)))
  }

  /** Sort key of `(a, b) => b[1] - a[1]`: descending score. */
  function Descending(s: Score): int {
    -(s.score as int)
  }

  predicate Positive(s: Score) {
    s.score > 0
  }

  /** `detectSystem` over a table: sort by descending score (stably), keep the
      positive scores, and answer the first key, or "auto". */
  function DetectWith(e: Engine, table: seq<SystemEntry>, text: string): string {
    var ranked := Filter(Positive, StableSort.Sort(Scores(e, table, text), Descending));
    if |ranked| > 0 then ranked[0].key else Auto
  }

  function DetectSystem(e: Engine, text: string): string {
    DetectWith(e, SystemPatterns, text)
  }

  /** Entry `i` has the highest score, and every entry declared before it a lower one. */
  predicate BestAt(rs: seq<Score>, i: nat)
    requires i < |rs|
  {
    && (forall j :: 0 <= j < |rs| ==> rs[j].score <= rs[i].score)
    && (forall j :: 0 <= j < i ==> rs[j].score < rs[i].score)
  }

  /** The answer is the key of the first entry with the highest score when
      that score is positive, "auto" otherwise. */
  lemma DetectTop(e: Engine, table: seq<SystemEntry>, text: string)
    requires |table| > 0
    ensures var rs := Scores(e, table, text);
      DetectWith(e, table, text)
        == if rs[StableSort.ArgMin(rs, Descending)].score > 0 then rs[StableSort.ArgMin(rs, Descending)].key else Auto
  {
    var rs := Scores(e, table, text);
    var sorted := StableSort.Sort(rs, Descending);
    StableSort.SortHead(rs, Descending);
    var i := StableSort.ArgMin(rs, Descending);
    if rs[i].score > 0 {
      assert sorted == [sorted[0]] + sorted[1..];
      assert Filter(Positive, sorted) == [sorted[0]] + Filter(Positive, sorted[1..]);
    } else {
      forall j | 0 <= j < |sorted| ensures !Positive(sorted[j]) {
        assert sorted[j] in multiset(rs);
        assert sorted[j] in rs;
      }
      FilterNone(Positive, sorted);
    }
  }

  /** With no occurrence at all the answer is "auto"; otherwise it is the key
      of an entry with the highest score, the first declared among equals. */
  lemma DetectOutcome(e: Engine, table: seq<SystemEntry>, text: string)
    ensures (forall i :: 0 <= i < |table| ==> Occurrences(e, table[i].signatures, text) == 0)
            ==> DetectWith(e, table, text) == Auto
    ensures (exists i :: 0 <= i < |table| && Occurrences(e, table[i].signatures, text) > 0)
            ==> exists i :: 0 <= i < |table| && BestAt(Scores(e, table, text), i)
                            && Occurrences(e, table[i].signatures, text) > 0
                            && DetectWith(e, table, text) == table[i].key
  {
    var rs := Scores(e, table, text);
    if |rs| > 0 {
      DetectTop(e, table, text);
      var i := StableSort.ArgMin(rs, Descending);
      assert BestAt(rs, i);
    } else {
      assert Filter(Positive, StableSort.Sort(rs, Descending)) == [];
    }
  }

  /** No entry is keyed "auto", and every entry has signatures. */
  predicate ValidTable(table: seq<SystemEntry>) {
    forall i :: 0 <= i < |table| ==> table[i].key != Auto && |table[i].signatures| > 0
  }

  lemma SystemKeys()
    ensures ValidTable(SystemPatterns)
  {
  }

  /** `detectSystem` answers "auto" exactly when no signature of any system
      occurs; otherwise a system with the most occurrences, ties going to the
      order eproc, esaj, pje, projudi, stf, stj. */
  lemma DetectSystemSpec(e: Engine, text: string)
    ensures DetectSystem(e, text) == Auto
            <==> forall i :: 0 <= i < |SystemPatterns| ==> !AnyTest(e, SystemPatterns[i].signatures, text)
    ensures DetectSystem(e, text) != Auto
            ==> exists i :: 0 <= i < |SystemPatterns| && BestAt(Scores(e, SystemPatterns, text), i)
                            && DetectSystem(e, text) == SystemPatterns[i].key
  {
    DetectOutcome(e, SystemPatterns, text);
    SystemKeys();
  }

  // ===== norm =====

  predicate IsTabOrCr(c: char) {
    c == '\t' || c == '\r'
  }

  /** `s.replace(re, ' ')` for `re` matching one or more characters of class
      `ws`: every maximal run of such characters becomes one space. */
  function Collapse(s: string, ws: char -> bool): (r: string)
    ensures |r| <= |s|
    ensures |r| > 0 ==> r[0] == (if ws(s[0]) then ' ' else s[0])
    decreases |s|
  {
    if |s| == 0 then ""
    else if ws(s[0]) then " " + Collapse(TrimLeft(s[1..], ws), ws)
    else [s[0]] + Collapse(s[1..], ws)
  }

  /** `s.replace(/\u00A0/g, ' ')`: no-break spaces become plain spaces. */
  function UnbreakSpaces(s: string): (r: string)
    ensures |r| == |s|
  {
    if |s| == 0 then ""
    else [if s[0] == '\U{A0}' then ' ' else s[0]] + UnbreakSpaces(s[1..])
  }

  /** `norm(s)`: tabs and carriage returns, then no-break spaces, then every
      whitespace run become one space, and the ends are trimmed. */
  function Norm(s: string): string {
    TrimJs(Collapse(UnbreakSpaces(Collapse(s, IsTabOrCr)), IsJsSpace))
  }

  /** Every character of class `ws` is a plain space and no two are adjacent. */
  predicate SingleSpaced(s: string, ws: char -> bool) {
    && (forall i :: 0 <= i < |s| && ws(s[i]) ==> s[i] == ' ')
    && (forall i :: 0 <= i < |s| - 1 ==> !(ws(s[i]) && ws(s[i + 1])))
  }

  /** What `norm` produces: single spaces only, and none at either end. */
  predicate Normal(s: string) {
    SingleSpaced(s, IsJsSpace) && (|s| == 0 || (!IsJsSpace(s[0]) && !IsJsSpace(s[|s| - 1])))
  }

  predicate NonSpace(c: char) {
    !IsJsSpace(c)
  }

  lemma {:induction false} CollapseSpaced(s: string, ws: char -> bool)
    ensures SingleSpaced(Collapse(s, ws), ws)
    decreases |s|
  {
    if |s| > 0 {
      var r := Collapse(s, ws);
      if ws(s[0]) {
        var t := TrimLeft(s[1..], ws);
        CollapseSpaced(t, ws);
        var c := Collapse(t, ws);
        assert r == " " + c;
        assert forall i :: 1 <= i < |r| ==> r[i] == c[i - 1];
      } else {
        CollapseSpaced(s[1..], ws);
        var c := Collapse(s[1..], ws);
        assert r == [s[0]] + c;
        assert forall i :: 1 <= i < |r| ==> r[i] == c[i - 1];
      }
    }
  }

  /** A single-spaced text is left as it is. */
  lemma {:induction false} CollapseFixed(s: string, ws: char -> bool)
    requires SingleSpaced(s, ws)
    ensures Collapse(s, ws) == s
    decreases |s|
  {
    if |s| > 0 {
      assert forall i :: 0 <= i < |s| - 1 ==> s[1..][i] == s[i + 1];
      assert SingleSpaced(s[1..], ws);
      CollapseFixed(s[1..], ws);
      if ws(s[0]) {
        assert TrimLeft(s[1..], ws) == s[1..];
        assert s == " " + s[1..];
      } else {
        assert s == [s[0]] + s[1..];
      }
    }
  }

  lemma {:induction false} FilterCons(p: char -> bool, c: char, s: string)
    ensures Filter(p, [c] + s) == (if p(c) then [c] else []) + Filter(p, s)
  {
    assert ([c] + s)[0] == c && ([c] + s)[1..] == s;
  }

  /** Dropping leading characters of a whitespace class keeps the words. */
  lemma {:induction false} TrimLeftWords(s: string, ws: char -> bool)
    requires forall c :: ws(c) ==> IsJsSpace(c)
    ensures Filter(NonSpace, TrimLeft(s, ws)) == Filter(NonSpace, s)
    decreases |s|
  {
    if |s| > 0 && ws(s[0]) {
      TrimLeftWords(s[1..], ws);
      FilterCons(NonSpace, s[0], s[1..]);
      assert s == [s[0]] + s[1..];
    }
  }

  lemma {:induction false} TrimRightWords(s: string)
    ensures Filter(NonSpace, TrimRight(s, IsJsSpace)) == Filter(NonSpace, s)
    decreases |s|
  {
    if |s| > 0 && IsJsSpace(s[|s| - 1]) {
      var init := s[..|s| - 1];
      TrimRightWords(init);
      assert s == init + [s[|s| - 1]];
      FilterAppend(NonSpace, init, [s[|s| - 1]]);
      FilterCons(NonSpace, s[|s| - 1], []);
    }
  }

  /** Collapsing whitespace runs keeps the non-space characters in order. */
  lemma {:induction false} CollapseWords(s: string, ws: char -> bool)
    requires forall c :: ws(c) ==> IsJsSpace(c)
    ensures Filter(NonSpace, Collapse(s, ws)) == Filter(NonSpace, s)
    decreases |s|
  {
    if |s| > 0 {
      assert s == [s[0]] + s[1..];
      FilterCons(NonSpace, s[0], s[1..]);
      if ws(s[0]) {
        var t := TrimLeft(s[1..], ws);
        CollapseWords(t, ws);
        TrimLeftWords(s[1..], ws);
        FilterCons(NonSpace, ' ', Collapse(t, ws));
      } else {
        CollapseWords(s[1..], ws);
        FilterCons(NonSpace, s[0], Collapse(s[1..], ws));
      }
    }
  }

  lemma {:induction false} UnbreakWords(s: string)
    ensures Filter(NonSpace, UnbreakSpaces(s)) == Filter(NonSpace, s)
  {
    if |s| > 0 {
      UnbreakWords(s[1..]);
      assert s == [s[0]] + s[1..];
      FilterCons(NonSpace, s[0], s[1..]);
      var c := if s[0] == '\U{A0}' then ' ' else s[0];
      FilterCons(NonSpace, c, UnbreakSpaces(s[1..]));
    }
  }

  lemma UnbreakFixed(s: string)
    requires forall i :: 0 <= i < |s| ==> s[i] != '\U{A0}'
    ensures UnbreakSpaces(s) == s
  {
  }

  /** A slice of a single-spaced text is single-spaced. */
  lemma SingleSpacedSlice(s: string, ws: char -> bool, r: string, k: nat)
    requires SingleSpaced(s, ws) && OccursAt(s, r, k)
    ensures SingleSpaced(r, ws)
  {
    assert forall i :: 0 <= i < |r| ==> r[i] == s[k + i];
  }

  /** `norm` yields single spaces only and no space at either end, and it
      keeps every other character, in order. */
  lemma NormSpec(s: string)
    ensures Normal(Norm(s))
    ensures Filter(NonSpace, Norm(s)) == Filter(NonSpace, s)
  {
    var a := Collapse(s, IsTabOrCr);
    var b := UnbreakSpaces(a);
    var c := Collapse(b, IsJsSpace);
    CollapseSpaced(b, IsJsSpace);
    TrimSlice(c, IsJsSpace);
    var k :| OccursAt(c, Norm(s), k);
    SingleSpacedSlice(c, IsJsSpace, Norm(s), k);
    CollapseWords(s, IsTabOrCr);
    UnbreakWords(a);
    CollapseWords(b, IsJsSpace);
    TrimLeftWords(c, IsJsSpace);
    TrimRightWords(TrimLeft(c, IsJsSpace));
  }

  /** A normal text is its own normal form. */
  lemma NormFixed(s: string)
    requires Normal(s)
    ensures Norm(s) == s
  {
    assert SingleSpaced(s, IsTabOrCr);
    CollapseFixed(s, IsTabOrCr);
    UnbreakFixed(s);
    CollapseFixed(s, IsJsSpace);
    if |s| > 0 {
      assert TrimLeft(s, IsJsSpace) == s;
      assert TrimRight(s, IsJsSpace) == s;
    }
  }

  lemma NormIdempotent(s: string)
    ensures Norm(Norm(s)) == Norm(s)
  {
    NormSpec(s);
    NormFixed(Norm(s));
  }

  // ===== Cleaner.clean =====

  /** Band and threshold settings that `clean` derives from the mode. */
  datatype Tuning = Tuning(topBand: real, bottomBand: real, minRepeat: nat, minSignals: nat)

  /** How far a mode goes: 'leve' (light), 'moderado' (moderate), anything else aggressive. */
  function Strength(mode: string): nat {
    if mode == "leve" then 0 else if mode == "moderado" then 1 else 2
  }

  /** The mode table: the bands stay fractions of the page that leave its
      middle uncovered, a header must repeat at least twice and one signal
      at least is required. */
  function ModeTuning(mode: string): (r: Tuning)
    ensures 0.0 < r.topBand && 0.0 < r.bottomBand && r.topBand + r.bottomBand < 1.0
    ensures r.minRepeat >= 2 && r.minSignals >= 1
    ensures Strength(mode) == 0 ==> r == Tuning(0.05, 0.08, 3, 3)
    ensures Strength(mode) == 1 ==> r == Tuning(0.06, 0.12, 2, 2)
    ensures Strength(mode) == 2 ==> r == Tuning(0.08, 0.18, 2, 1)
  {
    if mode == "leve" then Tuning(0.05, 0.08, 3, 3)
    else if mode == "moderado" then Tuning(0.06, 0.12, 2, 2)
    else Tuning(0.08, 0.18, 2, 1)
  }

  /** A stronger mode widens both bands and asks for no more repetitions and signals. */
  lemma ModeMonotone(a: string, b: string)
    requires Strength(a) <= Strength(b)
    ensures ModeTuning(a).topBand <= ModeTuning(b).topBand
    ensures ModeTuning(a).bottomBand <= ModeTuning(b).bottomBand
    ensures ModeTuning(a).minRepeat >= ModeTuning(b).minRepeat
    ensures ModeTuning(a).minSignals >= ModeTuning(b).minSignals
  {
  }

  /** The options the line filter reads. */
  datatype Options = Options(system: string, mode: string, removeHash: bool, removeSignature: bool,
                             removeProtocol: bool, removePageNum: bool, whitelist: seq<string>)

  /** The defaults `clean` merges the caller's options into. */
  const Defaults := Options(Auto, "leve", true, true, true, true, [])

  /** A line of a page; an absent text reads as "". */
  datatype Line = Line(text: string)

  /** A page as given: its `lines` when they form an array, None otherwise. */
  datatype Page = Page(lines: Option<seq<Line>>)

  function LinesOf(p: Page): seq<Line> {
    if p.lines.Some? then p.lines.value else []
  }

  /** A removed line with the reason it was removed. */
  datatype Removal = Removal(text: string, reason: string)

  datatype Stats = Stats(pages: nat, removed: nat, allowRanges: nat)

  /** The output of `clean`: the kept lines of every page, the removed ones
      in page and line order, and the counts. */
  datatype Cleaned = Cleaned(pages: seq<seq<Line>>, removed: seq<Removal>, stats: Stats)

  /** The whitelist terms: trimmed, lower-cased, empty ones dropped. */
  function Terms(whitelist: seq<string>): (r: seq<string>)
    ensures |r| <= |whitelist|
    ensures forall k :: 0 <= k < |r| ==> |r[k]| > 0
  {
    if |whitelist| == 0 then []
    else
      var w := CaseMap.ToLower(TrimJs(whitelist[0]));
      (if |w| > 0 then [w] else []) + Terms(whitelist[1..])
  }

  /** A text is whitelisted when its lower-case form contains a term. */
  predicate Whitelisted(terms: seq<string>, t: string) {
    exists k :: 0 <= k < |terms| && Contains(CaseMap.ToLower(t), terms[k])
  }

  /** `table[key].signatures` for the first entry with that key, [] when there is none. */
  function Lookup(table: seq<SystemEntry>, key: string): seq<Pattern> {
    if |table| == 0 then []
    else if table[0].key == key then table[0].signatures
    else Lookup(table[1..], key)
  }

  lemma {:induction false} LookupSpec(table: seq<SystemEntry>, key: string)
    ensures (forall i :: 0 <= i < |table| ==> table[i].key != key) ==> Lookup(table, key) == []
    ensures (exists i :: 0 <= i < |table| && table[i].key == key)
            ==> exists i :: 0 <= i < |table| && table[i].key == key && Lookup(table, key) == table[i].signatures
  {
    if |table| > 0 && table[0].key != key {
      LookupSpec(table[1..], key);
      assert forall i :: 1 <= i < |table| ==> table[i] == table[1..][i - 1];
      if exists i :: 0 <= i < |table| && table[i].key == key {
        var i :| 0 <= i < |table| && table[i].key == key;
        assert table[1..][i - 1].key == key;
        var j :| 0 <= j < |table[1..]| && table[1..][j].key == key && Lookup(table[1..], key) == table[1..][j].signatures;
        assert table[j + 1].key == key;
      }
    }
  }

  /** The system-specific signatures `clean` tests: none for "auto". */
  function SystemSignatures(table: seq<SystemEntry>, system: string): seq<Pattern> {
    if system == Auto then [] else Lookup(table, system)
  }

  /** In a table with non-empty signature lists and no "auto" key, system
      signatures are used exactly when the system is not "auto" and names an
      entry, and then they are that entry's. */
  lemma SystemSignaturesSpec(table: seq<SystemEntry>, system: string)
    requires ValidTable(table)
    ensures |SystemSignatures(table, system)| > 0
            <==> system != Auto && exists i :: 0 <= i < |table| && table[i].key == system
    ensures |SystemSignatures(table, system)| > 0
            ==> exists i :: 0 <= i < |table| && table[i].key == system
                            && SystemSignatures(table, system) == table[i].signatures
  {
    LookupSpec(table, system);
  }

  const HexId := Pattern("\\b(?:[A-Fa-f0-9]{32,64})\\b", "g")
  const Sha := Pattern("\\bSHA[- ]?(?:1|224|256|384|512):?\\s{0,5}[A-Fa-f0-9]{16,128}\\b", "gi")
  const Md5 := Pattern("\\bMD5:?[\\s-]{0,3}[A-Fa-f0-9]{16,32}\\b", "gi")
  const Protocol := Pattern("\\b(Protocolo|ID|Documento|Validador|Autenticidade|C[óo]digo Verificador|C[óo]digo de Verifica[çc][ãa]o)[:\\s#-]{0,5}[A-Za-z0-9\\-\\.\\/]{6,100}\\b", "gi")
  const IcpBrasil := Pattern("\\b(?:ICP-?Brasil|AC-?[A-Z]{2,10}|Autoridade Certificadora|Certificado Digital|Cadeia de certifica[çc][ãa]o)\\b", "gi")
  const ElectronicSignature := Pattern("\\b(?:Assinado (?:eletronicamente|digitalmente)|Documento assinado (?:eletronicamente|digitalmente)|Assinatura eletr[ôo]nica|Assinatura digital)\\b", "gi")
  const Timestamp := Pattern("\\b(?:Carimbo de tempo|Timestamp|Data\\/Hora da assinatura|Assinado em \\d{2}\\/\\d{2}\\/\\d{4})\\b", "gi")
  const SignatureHash := Pattern("\\b(?:Hash do documento|Resumo criptogr[áa]fico|MessageDigest)\\s{0,5}[:=]?\\s{0,5}[A-Fa-f0-9]{32,128}\\b", "gi")
  const CertificateSerial := Pattern("\\b(?:N[úu]mero de s[ée]rie|Serial Number|N[úu]mero do certificado)[:\\s]{0,5}[A-Fa-f0-9:]{16,100}\\b", "gi")
  const CertificateIssuer := Pattern("\\b(?:Emissor|Emitido por|Issued by)[:\\s]{0,5}(?:AC|CN=|O=)[^\\n]{5,100}\\b", "gi")
  const CertificateValidity := Pattern("\\b(?:V[áa]lido de|V[áa]lido at[ée]|Validade)[:\\s]{0,5}\\d{2}\\/\\d{2}\\/\\d{4}", "gi")
  const Seal := Pattern("\\b(?:Selo|Carimbo|Autenticidade|Valida[çc][ãa]o|Valida\\w{0,20})\\b", "gi")
  const PageNumber := Pattern("\\b(?:p(?:á|a)gina|pag\\.?|p\\.)\\s*\\d+(?:\\s*de\\s*\\d+)?\\b", "gi")

  /** The pattern tables the filter consults. */
  datatype Rules = Rules(systems: seq<SystemEntry>, hash: seq<Pattern>, signature: seq<Pattern>,
                         protocol: Pattern, pageNumber: Pattern)

  /** `SYSTEM_PATTERNS` and `RE`: the hash tests and the general signature
      tests in the order of their `||` chains. */
  const Standard := Rules(SystemPatterns, [HexId, Sha, Md5, SignatureHash],
                          [IcpBrasil, ElectronicSignature, Timestamp, CertificateSerial,
                           CertificateIssuer, CertificateValidity, Seal],
                          Protocol, PageNumber)

  /** Why the filter drops a line, or None when it keeps it: the whitelist
      first, then the system signatures, hashes, general signatures,
      protocols and page numbers, each behind its option. */
  function Verdict(e: Engine, rules: Rules, opts: Options, t: string): Option<string> {
    var system := SystemSignatures(rules.systems, opts.system);
    if Whitelisted(Terms(opts.whitelist), t) then None
    else if opts.removeSignature && |system| > 0 && AnyTest(e, system, t) then Some("signature-" + opts.system)
    else if opts.removeHash && AnyTest(e, rules.hash, t) then Some("hash")
    else if opts.removeSignature && AnyTest(e, rules.signature, t) then Some("signature-general")
    else if opts.removeProtocol && Test(e, rules.protocol, t) then Some("protocol")
    else if opts.removePageNum && Test(e, rules.pageNumber, t) then Some("page-number")
    else None
  }

  /** The verdict on a line text under the options. */
  function Judge(e: Engine, rules: Rules, opts: Options): string -> Option<string> {
    t => Verdict(e, rules, opts, t)
  }

  function Kept(judge: string -> Option<string>): Line -> bool {
    (l: Line) => judge(l.text).None?
  }

  /** The dropped lines of one page with their reasons, in order. */
  function Removals(judge: string -> Option<string>, lines: seq<Line>): (r: seq<Removal>)
    ensures |r| + |Filter(Kept(judge), lines)| == |lines|
    ensures forall k :: 0 <= k < |r| ==> judge(r[k].text) == Some(r[k].reason)
  {
    if |lines| == 0 then []
    else
      var v := judge(lines[0].text);
      (if v.Some? then [Removal(lines[0].text, v.value)] else []) + Removals(judge, lines[1..])
  }

  /** The filter over every page: kept lines per page, removals in page order. */
  datatype Pass = Pass(pages: seq<seq<Line>>, removed: seq<Removal>)

  function FilterPages(judge: string -> Option<string>, pss: seq<seq<Line>>): (r: Pass)
    ensures |r.pages| == |pss|
    ensures forall i :: 0 <= i < |pss| ==> r.pages[i] == Filter(Kept(judge), pss[i])
    ensures |r.removed| + |Flatten(r.pages)| == |Flatten(pss)|
    ensures forall k :: 0 <= k < |r.removed| ==> judge(r.removed[k].text) == Some(r.removed[k].reason)
  {
    if |pss| == 0 then Pass([], [])
    else
      var rest := FilterPages(judge, pss[1..]);
      var kept := Filter(Kept(judge), pss[0]);
      var r := Pass([kept] + rest.pages, Removals(judge, pss[0]) + rest.removed);
      assert r.pages[1..] == rest.pages;
      r
  }

  function AllLines(pages: seq<Page>): (r: seq<seq<Line>>)
    ensures |r| == |pages|
    ensures forall i :: 0 <= i < |pages| ==> r[i] == LinesOf(pages[i])
  {
    seq(|pages|, i requires 0 <= i < |pages| => LinesOf(pages[i]))
  }

  /** `Cleaner.clean(pages, options)` over pattern tables. The mode's tuning
      is computed by the source but not read by the filter, so it does not
      appear here. */
  function CleanWith(e: Engine, rules: Rules, pages: seq<Page>, opts: Options): (r: Cleaned)
    ensures |r.pages| == |pages|
    ensures r.stats == Stats(|pages|, |r.removed|, 0)
    ensures |r.removed| + |Flatten(r.pages)| == |Flatten(AllLines(pages))|
    ensures forall k :: 0 <= k < |r.removed| ==> Verdict(e, rules, opts, r.removed[k].text) == Some(r.removed[k].reason)
  {
    var pass := FilterPages(Judge(e, rules, opts), AllLines(pages));
    Cleaned(pass.pages, pass.removed, Stats(|pages|, |pass.removed|, 0))
  }

  /** `Cleaner.clean(pages, options)` with the source's tables. */
  function Clean(e: Engine, pages: seq<Page>, opts: Options): Cleaned {
    CleanWith(e, Standard, pages, opts)
  }

  lemma FilterPagesPage(judge: string -> Option<string>, pss: seq<seq<Line>>, i: nat)
    requires i < |pss|
    ensures Subseq(FilterPages(judge, pss).pages[i], pss[i])
    ensures forall l :: l in FilterPages(judge, pss).pages[i] <==> l in pss[i] && judge(l.text).None?
  {
    FilterSubseq(Kept(judge), pss[i]);
    FilterMembers(Kept(judge), pss[i]);
  }

  /** Each page keeps, in order, exactly its lines that have no verdict. */
  lemma CleanPage(e: Engine, rules: Rules, pages: seq<Page>, opts: Options, i: nat)
    requires i < |pages|
    ensures Subseq(CleanWith(e, rules, pages, opts).pages[i], LinesOf(pages[i]))
    ensures forall l :: l in CleanWith(e, rules, pages, opts).pages[i]
                        <==> l in LinesOf(pages[i]) && Verdict(e, rules, opts, l.text).None?
  {
    FilterPagesPage(Judge(e, rules, opts), AllLines(pages), i);
  }

  /** The whitelist takes priority: a whitelisted line is always kept. */
  lemma CleanKeepsWhitelisted(e: Engine, rules: Rules, pages: seq<Page>, opts: Options, i: nat, l: Line)
    requires i < |pages| && l in LinesOf(pages[i])
    requires Whitelisted(Terms(opts.whitelist), l.text)
    ensures l in CleanWith(e, rules, pages, opts).pages[i]
  {
    FilterPagesPage(Judge(e, rules, opts), AllLines(pages), i);
  }

  /** With every removal option off nothing is removed. */
  lemma CleanNothing(e: Engine, rules: Rules, pages: seq<Page>, opts: Options)
    requires !opts.removeHash && !opts.removeSignature && !opts.removeProtocol && !opts.removePageNum
    ensures CleanWith(e, rules, pages, opts).pages == AllLines(pages)
    ensures CleanWith(e, rules, pages, opts).removed == []
  {
    var judge := Judge(e, rules, opts);
    var r := CleanWith(e, rules, pages, opts);
    forall i | 0 <= i < |pages| ensures r.pages[i] == LinesOf(pages[i]) {
      var lines := LinesOf(pages[i]);
      forall j | 0 <= j < |lines| ensures Kept(judge)(lines[j]) {
        assert Verdict(e, rules, opts, lines[j].text) == None;
      }
      FilterAll(Kept(judge), lines);
    }
    assert r.pages == AllLines(pages);
  }

  // ===== Cleaner.joinPages =====

  /** Length of the longest prefix of `s` whose characters satisfy `p`. */
  function LeadingRun(s: string, p: char -> bool): (n: nat)
    ensures n <= |s|
    ensures forall i :: 0 <= i < n ==> p(s[i])
    ensures n < |s| ==> !p(s[n])
  {
    if |s| > 0 && p(s[0]) then 1 + LeadingRun(s[1..], p) else 0
  }

  /** `/^[c]+\./.test(t)` for the character class `p`, read through the
      longest run of class characters. */
  predicate DottedRun(t: string, p: char -> bool) {
    var n := LeadingRun(t, p);
    0 < n < |t| && t[n] == '.'
  }

  /** The run reading agrees with the pattern's own: some non-empty prefix
      of class characters is followed by a dot. */
  lemma DottedRunSpec(t: string, p: char -> bool)
    requires !p('.')
    ensures DottedRun(t, p) <==> exists k :: 0 < k < |t| && t[k] == '.' && forall i :: 0 <= i < k ==> p(t[i])
  {
    var n := LeadingRun(t, p);
    if exists k :: 0 < k < |t| && t[k] == '.' && forall i :: 0 <= i < k ==> p(t[i]) {
      var k :| 0 < k < |t| && t[k] == '.' && forall i :: 0 <= i < k ==> p(t[i]);
      assert !p(t[k]);
    }
  }

  predicate IsRomanLetter(c: char) {
    c == 'I' || c == 'V' || c == 'X'
  }

  /** The raw text starts with two whitespace characters (`/^\s{2,}/`). */
  predicate Indented(raw: string) {
    |raw| >= 2 && IsJsSpace(raw[0]) && IsJsSpace(raw[1])
  }

  /** The trimmed text starts like a list item: `/^[0-9]+\./`, `/^[A-Z][).]/`,
      `/^[IVX]+\./` or `/^[-•*]/`. */
  predicate ListMarker(t: string) {
    || DottedRun(t, IsAsciiDigit)
    || (|t| >= 2 && 'A' <= t[0] <= 'Z' && (t[1] == ')' || t[1] == '.'))
    || DottedRun(t, IsRomanLetter)
    || (|t| >= 1 && (t[0] == '-' || t[0] == '\U{2022}' || t[0] == '*'))
  }

  /** The text a line contributes: `(line.text || '').trim()`. */
  function TextOf(l: Line): string {
    TrimJs(l.text)
  }

  predicate NonBlank(l: Line) {
    |TextOf(l)| > 0
  }

  /** A line that opens a new paragraph. */
  predicate Opener(l: Line) {
    Indented(l.text) || ListMarker(TextOf(l))
  }

  /** The open paragraph `cur` as the list of paragraphs it closes into. */
  function Close(cur: seq<Line>): seq<seq<Line>> {
    if |cur| > 0 then [cur] else []
  }

  /** The paragraph loop over one page from the open paragraph `cur`: a line
      failing `filled` closes the open paragraph, a line satisfying `opens`
      closes it and starts a new one, any other line extends it; the end of
      the page closes it. */
  function GroupFrom(lines: seq<Line>, filled: Line -> bool, opens: Line -> bool, cur: seq<Line>): seq<seq<Line>>
    decreases |lines|
  {
    if |lines| == 0 then Close(cur)
    else if !filled(lines[0]) then Close(cur) + GroupFrom(lines[1..], filled, opens, [])
    else if opens(lines[0]) then Close(cur) + GroupFrom(lines[1..], filled, opens, [lines[0]])
    else GroupFrom(lines[1..], filled, opens, cur + [lines[0]])
  }

  /** Paragraphs that are not empty, hold only `filled` lines, and have an
      opening line at most at their head. */
  predicate WellGrouped(gs: seq<seq<Line>>, filled: Line -> bool, opens: Line -> bool) {
    && (forall k :: 0 <= k < |gs| ==> |gs[k]| > 0)
    && (forall k, j :: 0 <= k < |gs| && 0 <= j < |gs[k]| ==> filled(gs[k][j]))
    && (forall k, j :: 0 <= k < |gs| && 0 < j < |gs[k]| ==> !opens(gs[k][j]))
  }

  /** An open paragraph that may be closed. */
  predicate OpenGroup(cur: seq<Line>, filled: Line -> bool, opens: Line -> bool) {
    && (forall j :: 0 <= j < |cur| ==> filled(cur[j]))
    && (forall j :: 0 < j < |cur| ==> !opens(cur[j]))
  }

  lemma WellGroupedAppend(a: seq<seq<Line>>, b: seq<seq<Line>>, filled: Line -> bool, opens: Line -> bool)
    requires WellGrouped(a, filled, opens) && WellGrouped(b, filled, opens)
    ensures WellGrouped(a + b, filled, opens)
  {
    assert forall k :: |a| <= k < |a| + |b| ==> (a + b)[k] == b[k - |a|];
  }

  lemma CloseFlatten(cur: seq<Line>, gs: seq<seq<Line>>)
    ensures Flatten(Close(cur) + gs) == cur + Flatten(gs)
  {
    if |cur| > 0 {
      assert (Close(cur) + gs)[1..] == gs;
    } else {
      assert Close(cur) + gs == gs;
    }
  }

  /** The loop emits every `filled` line once, in order. */
  lemma {:induction false} GroupFromContent(lines: seq<Line>, filled: Line -> bool, opens: Line -> bool, cur: seq<Line>)
    ensures Flatten(GroupFrom(lines, filled, opens, cur)) == cur + Filter(filled, lines)
    decreases |lines|
  {
    if |lines| == 0 {
      CloseFlatten(cur, []);
      assert Close(cur) + [] == Close(cur);
    } else {
      var l := lines[0];
      var rest := Filter(filled, lines[1..]);
      if !filled(l) {
        GroupFromContent(lines[1..], filled, opens, []);
        CloseFlatten(cur, GroupFrom(lines[1..], filled, opens, []));
      } else if opens(l) {
        GroupFromContent(lines[1..], filled, opens, [l]);
        CloseFlatten(cur, GroupFrom(lines[1..], filled, opens, [l]));
        assert cur + ([l] + rest) == cur + [l] + rest;
      } else {
        GroupFromContent(lines[1..], filled, opens, cur + [l]);
        assert cur + ([l] + rest) == (cur + [l]) + rest;
      }
    }
  }

  /** The loop closes only well-formed paragraphs. */
  lemma {:induction false} GroupFromGrouped(lines: seq<Line>, filled: Line -> bool, opens: Line -> bool, cur: seq<Line>)
    requires OpenGroup(cur, filled, opens)
    ensures WellGrouped(GroupFrom(lines, filled, opens, cur), filled, opens)
    decreases |lines|
  {
    assert WellGrouped(Close(cur), filled, opens);
    if |lines| > 0 {
      var l := lines[0];
      if !filled(l) {
        GroupFromGrouped(lines[1..], filled, opens, []);
        WellGroupedAppend(Close(cur), GroupFrom(lines[1..], filled, opens, []), filled, opens);
      } else if opens(l) {
        GroupFromGrouped(lines[1..], filled, opens, [l]);
        WellGroupedAppend(Close(cur), GroupFrom(lines[1..], filled, opens, [l]), filled, opens);
      } else {
        assert forall j :: 0 <= j < |cur| ==> (cur + [l])[j] == cur[j];
        GroupFromGrouped(lines[1..], filled, opens, cur + [l]);
      }
    }
  }

  /** The paragraphs of one page. */
  function PageParagraphs(lines: seq<Line>): seq<seq<Line>> {
    GroupFrom(lines, NonBlank, Opener, [])
  }

  /** The paragraphs of all pages: the open paragraph is closed at the end of every page. */
  function Paragraphs(pages: seq<seq<Line>>): seq<seq<Line>> {
    if |pages| == 0 then [] else PageParagraphs(pages[0]) + Paragraphs(pages[1..])
  }

  /** No paragraph spans a page boundary: the paragraphs of consecutive runs
      of pages are those of each run, one after the other. */
  lemma {:induction false} ParagraphsAppend(p1: seq<seq<Line>>, p2: seq<seq<Line>>)
    ensures Paragraphs(p1 + p2) == Paragraphs(p1) + Paragraphs(p2)
  {
    if |p1| == 0 {
      assert p1 + p2 == p2;
    } else {
      assert (p1 + p2)[1..] == p1[1..] + p2;
      ParagraphsAppend(p1[1..], p2);
    }
  }

  /** Every non-blank line lands in exactly one paragraph, in order; no
      paragraph is empty or holds a blank line, and an opening line only
      ever heads a paragraph. */
  lemma {:induction false} ParagraphsSpec(pages: seq<seq<Line>>)
    ensures Flatten(Paragraphs(pages)) == Filter(NonBlank, Flatten(pages))
    ensures WellGrouped(Paragraphs(pages), NonBlank, Opener)
  {
    if |pages| > 0 {
      var first := PageParagraphs(pages[0]);
      var rest := Paragraphs(pages[1..]);
      GroupFromContent(pages[0], NonBlank, Opener, []);
      GroupFromGrouped(pages[0], NonBlank, Opener, []);
      ParagraphsSpec(pages[1..]);
      WellGroupedAppend(first, rest, NonBlank, Opener);
      ParagraphsContent(pages, first, rest);
    }
  }

  lemma ParagraphsContent(pages: seq<seq<Line>>, first: seq<seq<Line>>, rest: seq<seq<Line>>)
    requires |pages| > 0
    requires first == PageParagraphs(pages[0]) && rest == Paragraphs(pages[1..])
    requires Flatten(first) == Filter(NonBlank, pages[0])
    requires Flatten(rest) == Filter(NonBlank, Flatten(pages[1..]))
    ensures Flatten(Paragraphs(pages)) == Filter(NonBlank, Flatten(pages))
  {
    FlattenAppend(first, rest);
    FilterAppend(NonBlank, pages[0], Flatten(pages[1..]));
  }

  /** The trimmed texts of a paragraph's lines. */
  function Texts(g: seq<Line>): (r: seq<string>)
    ensures |r| == |g|
    ensures forall j :: 0 <= j < |g| ==> r[j] == TextOf(g[j])
  {
    seq(|g|, j requires 0 <= j < |g| => TextOf(g[j]))
  }

  /** `currentParagraph.join(' ')`. */
  function ParagraphText(g: seq<Line>): string {
    Join(Texts(g), " ")
  }

  function ParagraphTexts(gs: seq<seq<Line>>): (r: seq<string>)
    ensures |r| == |gs|
    ensures forall k :: 0 <= k < |gs| ==> r[k] == ParagraphText(gs[k])
  {
    seq(|gs|, k requires 0 <= k < |gs| => ParagraphText(gs[k]))
  }

  /** `Cleaner.joinPages`: the paragraphs separated by blank lines. */
  function JoinPages(pages: seq<seq<Line>>): string {
    Join(ParagraphTexts(Paragraphs(pages)), "\n\n")
  }

  lemma JoinLength(xs: seq<string>, sep: string)
    requires |xs| > 0
    ensures |Join(xs, sep)| >= |xs[0]|
  {
  }

  lemma {:induction false} TextsFlatten(gs: seq<seq<Line>>)
    ensures Flatten(seq(|gs|, k requires 0 <= k < |gs| => Texts(gs[k]))) == Texts(Flatten(gs))
  {
    var ts := seq(|gs|, k requires 0 <= k < |gs| => Texts(gs[k]));
    if |gs| > 0 {
      TextsFlatten(gs[1..]);
      assert ts[1..] == seq(|gs[1..]|, k requires 0 <= k < |gs[1..]| => Texts(gs[1..][k]));
      assert Texts(Flatten(gs)) == Texts(gs[0]) + Texts(Flatten(gs[1..]));
    }
  }

  /** The joined text is made of one non-empty paragraph per paragraph of
      lines, each the trimmed line texts joined by spaces; read in order, the
      paragraphs' line texts are the trimmed texts of the non-blank lines. */
  lemma JoinPagesSpec(pages: seq<seq<Line>>)
    ensures var gs := Paragraphs(pages);
      && |ParagraphTexts(gs)| == |gs|
      && (forall k :: 0 <= k < |gs| ==> |ParagraphTexts(gs)[k]| > 0)
      && Flatten(seq(|gs|, k requires 0 <= k < |gs| => Texts(gs[k]))) == Texts(Filter(NonBlank, Flatten(pages)))
  {
    var gs := Paragraphs(pages);
    ParagraphsSpec(pages);
    forall k | 0 <= k < |gs| ensures |ParagraphTexts(gs)[k]| > 0 {
      assert NonBlank(gs[k][0]);
      JoinLength(Texts(gs[k]), " ");
    }
    TextsFlatten(gs);
  }
}
