/** `AdvancedSignatureCleaner`: removes the signature stamps, validation
    codes and certification banners that each Brazilian e-filing system
    prints on its documents. Cleaning runs four steps in a fixed order —
    the detected system's rules, the universal rules, the user's blacklist,
    a whitespace normalisation — and records every rule that changed the
    text. */
module SignatureCleaner {
  import opened Wrappers
  import opened Regex
  import opened Strings

  /** A cleaning rule: what it removes and the global pattern that finds it
      (every rule of the tables replaces its matches by ''). */
  datatype Rule = Rule(description: string, regex: Pattern)

  /** One entry of `stats.removedPatterns`. */
  datatype Removal = Removal(category: string, description: string, pattern: string)

  /** The text after a group of rules and the rules that changed it. */
  datatype Applied = Applied(text: string, patterns: seq<Removal>)

  const PjeRules: seq<Rule> := [
    Rule("Código de verificação PJE (formato XXXX.9999.9XX9.X9XX)", Pattern("c[óo]digo\\s+de\\s+verifica[çc][ãa]o:\\s*[A-Z0-9]{4}\\.[0-9]{4}\\.[0-9A-Z]{4}\\.[A-Z0-9]{4}", "gi")),
    Rule("Timestamp de geração PJE", Pattern("este\\s+documento\\s+foi\\s+gerado\\s+pelo\\s+usu[áa]rio\\s+\\d{3}\\.\\d{3}\\.\\d{3}-\\d{2}\\s+em\\s+\\d{2}\\/\\d{2}\\/\\d{4}\\s+\\d{2}:\\d{2}:\\d{2}", "gi")),
    Rule("URL de validação PJE", Pattern("https?:\\/\\/[a-z0-9.-]*\\.(trt|trf|tst|cnj)\\d*\\.jus\\.br\\/[^\\s]*validar[^\\s]*", "gi")),
    Rule("Tarja de assinatura dupla PJE (Resolução CNJ 281/2019)", Pattern("documento\\s+assinado\\s+por\\s+[^\\n]{5,100}\\s+e\\s+certificado\\s+digitalmente\\s+por\\s+[^\\n]{5,100}", "gi")),
    Rule("QR Code placeholder PJE", Pattern("\\[QR\\s+CODE\\]|\\{QR\\s+CODE\\}", "gi")),
    Rule("Rodapé PJE genérico", Pattern("^[_\\-=]+\\s*processo\\s+judicial\\s+eletr[ôo]nico\\s*[_\\-=]+$", "gmi"))
  ]

  const EsajRules: seq<Rule> := [
    Rule("Selo lateral vertical ESAJ (texto rotacionado)", Pattern("c[óo]digo\\s+do\\s+documento:\\s*[A-Z0-9]{8,20}", "gi")),
    Rule("Conferência de documento digital ESAJ", Pattern("confer[êe]ncia\\s+de\\s+documento\\s+digital.*?portal\\s+e-saj", "gis")),
    Rule("QR Code ESAJ com URL", Pattern("https?:\\/\\/[a-z0-9.-]*\\.jus\\.br\\/[^\\s]*esaj[^\\s]*\\/documento[^\\s]*", "gi")),
    Rule("Barra de assinatura digital ESAJ", Pattern("assinado\\s+digitalmente\\s+por:\\s*[^\\n]{5,80}\\s+data:\\s*\\d{2}\\/\\d{2}\\/\\d{4}\\s+\\d{2}:\\d{2}:\\d{2}", "gi")),
    Rule("Brasão e logotipo TJSP", Pattern("tribunal\\s+de\\s+justi[çc]a\\s+do\\s+estado\\s+de\\s+s[ãa]o\\s+paulo\\s*-\\s*tjsp", "gi")),
    Rule("Referência Resolução 552/11 (brasão TJSP)", Pattern("resolu[çc][ãa]o\\s+n?[º°]?\\s*552\\/11", "gi")),
    Rule("Marca d'água ESAJ", Pattern("\\[marca\\s+d.?[áa]gua:?\\s*esaj\\]", "gi"))
  ]

  const EprocRules: seq<Rule> := [
    Rule("Referência a arquivo .p7s (assinatura destacada)", Pattern("assinatura\\s+digital\\s+dispon[ií]vel\\s+em:\\s*[^\\n]*\\.p7s", "gi")),
    Rule("Verificador de Conformidade ITI", Pattern("verificador\\s+de\\s+conformidade\\s+(iti|icp-brasil)", "gi")),
    Rule("Selo PAdES padrão EPROC", Pattern("assinado\\s+eletronicamente\\s+por.*?certificado\\s+digital\\s+icp-brasil", "gis")),
    Rule("URL EPROC", Pattern("https?:\\/\\/[a-z0-9.-]*\\.(trf|tj)[a-z0-9]*\\.jus\\.br\\/[^\\s]*eproc[^\\s]*", "gi")),
    Rule("ByteRange e referências técnicas CAdES", Pattern("byterange\\s*\\[\\s*\\d+\\s+\\d+\\s+\\d+\\s+\\d+\\s*\\]", "gi"))
  ]

  const ProjudiRules: seq<Rule> := [
    Rule("Selo PAdES padrão PROJUDI", Pattern("digitalmente\\s+assinado\\s+por.*?data:\\s*\\d{2}\\/\\d{2}\\/\\d{4}", "gis")),
    Rule("URL PROJUDI (variações regionais)", Pattern("https?:\\/\\/[a-z0-9.-]*\\.jus\\.br\\/[^\\s]*projudi[^\\s]*", "gi")),
    Rule("Assinador Livre TJRJ", Pattern("assinador\\s+livre\\s+(tjrj|tribunal\\s+de\\s+justi[çc]a\\s+do\\s+rio\\s+de\\s+janeiro)", "gi")),
    Rule("Versão PROJUDI", Pattern("projudi\\s+-\\s+vers[ãa]o\\s+\\d+\\.\\d+(\\.\\d+)?", "gi")),
    Rule("Brasões variados (variações regionais)", Pattern("\\[bras[ãa]o:?\\s*[^\\]]{5,50}\\]", "gi"))
  ]

  const StfRules: seq<Rule> := [
    Rule("Marca d'água com CPF do consulente STF", Pattern("cpf\\s+do\\s+consulente:\\s*\\d{3}\\.\\d{3}\\.\\d{3}-\\d{2}", "gi")),
    Rule("Alerta de marca d'água STF", Pattern("a\\s+inser[çc][ãa]o\\s+da\\s+marca\\s+d.?[áa]gua\\s+se\\s+sobrescreve.*?sistemas\\s+internos\\s+do\\s+tribunal", "gis")),
    Rule("Assinatura PKCS7 STF", Pattern("assinatura\\s+digital\\s+pkcs\\s*[#]?\\s*7", "gi")),
    Rule("URL validação STF", Pattern("https?:\\/\\/(www\\.)?stf\\.jus\\.br\\/[^\\s]*(validar|autenticar)[^\\s]*", "gi")),
    Rule("Projeto Victor (ocerização automática)", Pattern("documento\\s+processado\\s+pelo\\s+projeto\\s+victor", "gi")),
    Rule("Resolução STF 693/2020", Pattern("resolu[çc][ãa]o\\s+stf\\s+n?[º°]?\\s*693\\/2020", "gi")),
    Rule("Cabeçalho STF padrão", Pattern("supremo\\s+tribunal\\s+federal\\s*-\\s*stf.*?pet\\s+v3", "gis"))
  ]

  const StjRules: seq<Rule> := [
    Rule("Código de verificação STJ", Pattern("c[óo]digo:\\s*[A-Z0-9]{16,32}", "gi")),
    Rule("URL autenticação STJ", Pattern("autentique\\s+em:\\s*https?:\\/\\/(www\\.)?stj\\.jus\\.br\\/validar[^\\s]*", "gi")),
    Rule("Dados de certificado STJ", Pattern("assinado\\s+por:\\s*[^\\n]{5,80}\\s+-\\s+cpf:\\s*\\d{3}\\.\\d{3}\\.\\d{3}-\\d{2}", "gi")),
    Rule("Timestamp STJ", Pattern("data:\\s*\\d{2}\\/\\d{2}\\/\\d{4}\\s+\\d{2}:\\d{2}:\\d{2}\\s+(brt|brst|-03:?00|-02:?00)", "gi")),
    Rule("Disclaimer MP 2.200-2/2001", Pattern("documento\\s+assinado\\s+digitalmente\\s+conforme\\s+mp\\s+n?[º°]?\\s*2\\.?200-2\\/2001", "gi")),
    Rule("QR Code STJ", Pattern("valide\\s+este\\s+documento\\s+via\\s+qr\\s+code", "gi")),
    Rule("Cabeçalho STJ padrão", Pattern("superior\\s+tribunal\\s+de\\s+justi[çc]a\\s*-\\s*stj.*?central\\s+do\\s+processo\\s+eletr[ôo]nico", "gis")),
    Rule("Marca d'água STJ", Pattern("\\[logo\\s+institucional\\s+stj\\]", "gi"))
  ]

  const GenericJudicialRules: seq<Rule> := [
    Rule("Assinatura digital genérica", Pattern("assinado\\s+digitalmente\\s+por:?\\s*[^\\n]{5,100}", "gi")),
    Rule("Certificado digital genérico", Pattern("certificado\\s+digital:?\\s*[^\\n]{5,100}", "gi")),
    Rule("Data/hora de assinatura genérica", Pattern("data\\s+da\\s+assinatura:?\\s*\\d{2}\\/\\d{2}\\/\\d{4}\\s+\\d{2}:\\d{2}(:\\d{2})?", "gi")),
    Rule("URL de validação genérica", Pattern("valide?\\s+este\\s+documento\\s+em:?\\s*https?:\\/\\/[^\\s]+", "gi"))
  ]

  /** Rules applied whatever the system (ICP-Brasil certification and the like). */
  const UniversalRules: seq<Rule> := [
    Rule("Serial number de certificado (hexadecimal longo)", Pattern("serial\\s+number:?\\s*[0-9A-F]{16,}", "gi")),
    Rule("Hash SHA-1", Pattern("sha-?1:?\\s*[0-9A-F]{40}", "gi")),
    Rule("Hash SHA-256", Pattern("sha-?256:?\\s*[0-9A-F]{64}", "gi")),
    Rule("Autoridade Certificadora ICP-Brasil", Pattern("ac\\s+[a-z]+\\s+-\\s+icp-brasil", "gi")),
    Rule("Emissor de certificado", Pattern("emissor:?\\s*cn\\s*=\\s*ac\\s+[^\\n]{10,80}", "gi")),
    Rule("Subject do certificado", Pattern("subject:?\\s*cn\\s*=\\s*[^\\n]{10,80}cpf\\s*=\\s*\\d{11}", "gi")),
    Rule("Validade do certificado", Pattern("v[áa]lido\\s+de:?\\s*\\d{2}\\/\\d{2}\\/\\d{4}\\s+at[ée]:?\\s*\\d{2}\\/\\d{2}\\/\\d{4}", "gi")),
    Rule("Padrão PAdES/CAdES/XAdES", Pattern("\\b(pades|cades|xades)\\s+(signature|assinatura)", "gi")),
    Rule("Referência ETSI TS 102 778", Pattern("etsi\\s+ts\\s+102\\s+778", "gi")),
    Rule("ITI - Instituto Nacional de Tecnologia da Informação", Pattern("iti\\s+-\\s+instituto\\s+nacional\\s+de\\s+tecnologia\\s+da\\s+informa[çc][ãa]o", "gi")),
    Rule("URL validador ITI", Pattern("https?:\\/\\/(www\\.)?validar\\.iti\\.gov\\.br[^\\s]*", "gi")),
    Rule("Timestamp RFC 3161", Pattern("timestamp\\s+rfc\\s+3161", "gi")),
    Rule("Assinatura qualificada ICP-Brasil", Pattern("assinatura\\s+qualificada\\s+icp-brasil", "gi")),
    Rule("Linhas separadoras estéticas", Pattern("^[_\\-=*]{10,}$", "gm")),
    Rule("Páginas numeradas isoladas (ex: \"Página 1 de 10\")", Pattern("^p[áa]gina\\s+\\d+\\s+(de|\\/)\\s+\\d+\\s*$", "gmi"))
  ]

  /** `this.systemPatterns`, in declaration order. */
  const SystemRules: seq<(string, seq<Rule>)> := [
    ("PJE", PjeRules), ("ESAJ", EsajRules), ("EPROC", EprocRules), ("PROJUDI", ProjudiRules),
    ("STF", StfRules), ("STJ", StjRules), ("GENERIC_JUDICIAL", GenericJudicialRules)
  ]

  /** The system assumed when the caller names none. */
  const DefaultSystem := "GENERIC_JUDICIAL"

  /** `table[key]`: the rules of the first entry named `key`, if any. */
  function Lookup(table: seq<(string, seq<Rule>)>, key: string): (r: Option<seq<Rule>>)
    ensures r.None? <==> forall i :: 0 <= i < |table| ==> table[i].0 != key
    ensures r.Some? ==> exists i :: 0 <= i < |table| && table[i] == (key, r.value)
  {
    if |table| == 0 then None
    else if table[0].0 == key then Some(table[0].1)
    else
      var rest := Lookup(table[1..], key);
      assert forall i :: 1 <= i < |table| ==> table[i] == table[1..][i - 1];
      if rest.Some? then
        var i :| 0 <= i < |table[1..]| && table[1..][i] == (key, rest.value);
        assert table[i + 1] == (key, rest.value);
        rest
      else rest
  }

  /** A removal that changes the text makes it strictly shorter. */
  lemma RemoveChanges(e: Engine, p: Pattern, s: string)
    ensures Remove(e, p, s) != s ==> |Remove(e, p, s)| < |s|
  {
    RemoveLength(e, p, s);
    if Covered(e(p, s)) == 0 {
      ReplaceUncovered(s, e(p, s), 0);
    }
  }

  /** Deleting spans that cover nothing leaves the text as it was. */
  lemma {:induction false} ReplaceUncovered(s: string, spans: seq<Span>, pos: nat)
    requires pos <= |s| && Ordered(spans, |s|, pos) && Covered(spans) == 0
    ensures ReplaceFrom(s, spans, pos, "") == s[pos..]
  {
    if |spans| > 0 {
      var end := spans[0].start + spans[0].len;
      ReplaceUncovered(s, spans[1..], end);
      assert s[pos..spans[0].start] + s[end..] == s[pos..];
    }
  }

  /** `_applyPatterns`: each rule in turn deletes its matches; a rule is
      recorded, under `category`, exactly when it changed the text. */
  function ApplyPatterns(e: Engine, text: string, rules: seq<Rule>, category: string): (r: Applied)
    ensures |r.patterns| <= |rules|
    ensures forall i :: 0 <= i < |r.patterns| ==> r.patterns[i].category == category
    ensures |r.text| + |r.patterns| <= |text|
    ensures r.patterns == [] <==> r.text == text
    decreases |rules|
  {
    if |rules| == 0 then Applied(text, [])
    else
      var next := Remove(e, rules[0].regex, text);
      RemoveChanges(e, rules[0].regex, text);
      var rest := ApplyPatterns(e, next, rules[1..], category);
      var entry := if next != text then [Removal(category, rules[0].description, rules[0].regex.source)] else [];
      Applied(rest.text, entry + rest.patterns)
  }

  // ---------------------------------------------------------------------
  // The custom blacklist
  // ---------------------------------------------------------------------

  /** A blacklist entry; `None` stands for `null` or `undefined`. */
  type Item = Option<string>

  predicate Truthy(item: Item) {
    item.Some? && item.value != ""
  }

  /** Characters `/[.*+?^${}()|[\]\\]/` that are escaped before building a
      literal regular expression. */
  predicate IsRegexSpecial(c: char) {
    c in ".*+?^${}()|[]\\"
  }

  /** `item.replace(/[.*+?^${}()|[\]\\]/g, '\\$&')`. */
  function Escape(s: string): (r: string)
    ensures |r| >= |s|
  {
    if |s| == 0 then ""
    else (if IsRegexSpecial(s[0]) then ['\\', s[0]] else [s[0]]) + Escape(s[1..])
  }

  /** What a regular expression reads from an escaped literal: a backslash
      stands for the character after it. */
  function Unescape(s: string): string
    decreases |s|
  {
    if |s| == 0 then ""
    else if s[0] == '\\' && |s| >= 2 then [s[1]] + Unescape(s[2..])
    else [s[0]] + Unescape(s[1..])
  }

  /** The escaped item denotes exactly the item's own characters, and no
      special character is left unescaped. */
  lemma {:induction false} EscapeLiteral(s: string)
    ensures Unescape(Escape(s)) == s
  {
    if |s| > 0 {
      EscapeLiteral(s[1..]);
      var head := if IsRegexSpecial(s[0]) then ['\\', s[0]] else [s[0]];
      var t := head + Escape(s[1..]);
      if IsRegexSpecial(s[0]) {
        assert t[0] == '\\' && t[1] == s[0] && t[2..] == Escape(s[1..]);
      } else {
        assert s[0] != '\\';
        assert t[0] == s[0] && t[1..] == Escape(s[1..]);
      }
    }
  }

  /** An item that is skipped: falsy or blank after `trim()`. */
  predicate Skipped(item: Item) {
    !Truthy(item) || TrimJs(item.value) == ""
  }

  /** `_applyCustomBlacklist`: every usable item is deleted from the text as
      a literal, case-insensitively, and recorded when it changed the text;
      skipped items record nothing. */
  function ApplyBlacklist(e: Engine, text: string, items: seq<Item>): (r: Applied)
    ensures |r.patterns| <= |items|
    ensures forall i :: 0 <= i < |r.patterns| ==> r.patterns[i].category == "custom-blacklist"
    ensures |r.text| + |r.patterns| <= |text|
    ensures r.patterns == [] <==> r.text == text
    ensures (forall i :: 0 <= i < |items| ==> Skipped(items[i])) ==> r == Applied(text, [])
    decreases |items|
  {
    if |items| == 0 then Applied(text, [])
    else
      assert forall i :: 1 <= i < |items| ==> items[1..][i - 1] == items[i];
      var item := items[0];
      if Skipped(item) then ApplyBlacklist(e, text, items[1..])
      else
        var escaped := Escape(item.value);
        var p := Pattern(escaped, "gi");
        var next := Remove(e, p, text);
        RemoveChanges(e, p, text);
        var rest := ApplyBlacklist(e, next, items[1..]);
        var entry := if next != text
          then [Removal("custom-blacklist", "Termo customizado removido: \"" + item.value + "\"", escaped)]
          else [];
        Applied(rest.text, entry + rest.patterns)
  }

  // ---------------------------------------------------------------------
  // Normalisation
  // ---------------------------------------------------------------------

  const SpaceRuns := Pattern("[ \\t]+", "g")
  const LineEdges := Pattern("^[ \\t]+|[ \\t]+$", "gm")
  const NewlineRuns := Pattern("\\n{3,}", "g")
  const OrnamentLines := Pattern("^\\s*[_\\-=*]{1,5}\\s*$", "gm")

  /** `_normalizeText`: runs of spaces and tabs become one space, line
      edges lose their spaces, three or more newlines become two, lines of
      one to five ornament characters are deleted, and the whole is trimmed. */
  function NormalizeText(e: Engine, text: string): (r: string)
    ensures |r| == 0 || (!IsJsSpace(r[0]) && !IsJsSpace(r[|r| - 1]))
  {
    var t := Remove(e, OrnamentLines, Replace(e, NewlineRuns, Remove(e, LineEdges, Replace(e, SpaceRuns, text, " ")), "\n\n"));
    TrimSlice(t, IsJsSpace);
    TrimJs(t)
  }

  /** Every match of `p` is at least `k` characters long: a property of the
      pattern under a real regular-expression engine. */
  ghost predicate MatchesAtLeast(e: Engine, p: Pattern, k: nat) {
    forall s, i :: 0 <= i < |e(p, s)| ==> e(p, s)[i].len >= k
  }

  lemma {:induction false} CoveredAtLeast(spans: seq<Span>, k: nat)
    requires forall i :: 0 <= i < |spans| ==> spans[i].len >= k
    ensures Covered(spans) >= k * |spans|
  {
    if |spans| > 0 {
      CoveredAtLeast(spans[1..], k);
    }
  }

  /** Replacing matches of at least `|rep|` characters by `rep` does not
      lengthen the text. */
  lemma ReplaceShrinks(e: Engine, p: Pattern, s: string, rep: string)
    requires MatchesAtLeast(e, p, |rep|)
    ensures |Replace(e, p, s, rep)| <= |s|
  {
    CoveredAtLeast(e(p, s), |rep|);
  }

  /** Normalisation never lengthens the text, given that the space-run
      pattern matches at least one character and the newline-run pattern at
      least three, as their quantifiers demand. */
  lemma NormalizeShrinks(e: Engine, text: string)
    requires MatchesAtLeast(e, SpaceRuns, 1) && MatchesAtLeast(e, NewlineRuns, 3)
    ensures |NormalizeText(e, text)| <= |text|
  {
    var a := Replace(e, SpaceRuns, text, " ");
    ReplaceShrinks(e, SpaceRuns, text, " ");
    var b := Remove(e, LineEdges, a);
    ReplaceShrinks(e, NewlineRuns, b, "\n\n");
  }

  // ---------------------------------------------------------------------
  // clean
  // ---------------------------------------------------------------------

  datatype Stats = Stats(system: string, originalLength: nat, removedPatterns: seq<Removal>, finalLength: nat)

  /** What `clean` returns: a falsy text comes back as it is, anything else
      as `{text, stats}`. */
  datatype Outcome = Unchanged(text: string) | Cleaned(text: string, stats: Stats)

  /** The three removal steps of `clean`: the system's rules, only when the
      table has the system; the universal rules, always; the blacklist, only
      when it is not empty. */
  function CleanSteps(e: Engine, table: seq<(string, seq<Rule>)>, universal: seq<Rule>,
                      blacklist: seq<Item>, text: string, system: string): (r: (Applied, Applied, Applied))
    ensures Lookup(table, system).None? ==> r.0 == Applied(text, [])
    ensures forall i :: 0 <= i < |r.0.patterns| ==> r.0.patterns[i].category == system + "-specific"
    ensures forall i :: 0 <= i < |r.1.patterns| ==> r.1.patterns[i].category == "universal"
    ensures forall i :: 0 <= i < |r.2.patterns| ==> r.2.patterns[i].category == "custom-blacklist"
    ensures |blacklist| == 0 ==> r.2 == Applied(r.1.text, [])
    ensures |r.2.text| + |r.0.patterns| + |r.1.patterns| + |r.2.patterns| <= |text|
  {
    var s1 := match Lookup(table, system)
      case Some(rules) => ApplyPatterns(e, text, rules, system + "-specific")
      case None => Applied(text, []);
    var s2 := ApplyPatterns(e, s1.text, universal, "universal");
    var s3 := if |blacklist| > 0 then ApplyBlacklist(e, s2.text, blacklist) else Applied(s2.text, []);
    (s1, s2, s3)
  }

  /** `clean` over a table of system rules and a list of universal rules. */
  function CleanWith(e: Engine, table: seq<(string, seq<Rule>)>, universal: seq<Rule>,
                     blacklist: seq<Item>, text: string, system: string): (r: Outcome)
    ensures r.Unchanged? <==> text == ""
    ensures r.Unchanged? ==> r.text == text
    ensures r.Cleaned? ==> r.stats.system == system && r.stats.originalLength == |text|
                           && r.stats.finalLength == |r.text|
  {
    if |text| == 0 then Unchanged(text)
    else
      var steps := CleanSteps(e, table, universal, blacklist, text, system);
      var out := NormalizeText(e, steps.2.text);
      Cleaned(out, Stats(system, |text|, steps.0.patterns + steps.1.patterns + steps.2.patterns, |out|))
  }

  /** `clean(text, detectedSystem)` with the module's rule tables. */
  function Clean(e: Engine, blacklist: seq<Item>, text: string, system: string): Outcome {
    CleanWith(e, SystemRules, UniversalRules, blacklist, text, system)
  }

  /** `stats.reductionPercentage` before `toFixed(2)`. */
  function Reduction(st: Stats): real
    requires st.originalLength > 0
  {
    (1.0 - st.finalLength as real / st.originalLength as real) * 100.0
  }

  /** Entries before `a` are of category `c1`, those from `a` to `b` of
      `c2`, the rest of `c3`. */
  predicate Phased(ps: seq<Removal>, a: nat, b: nat, c1: string, c2: string, c3: string) {
    && a <= b <= |ps|
    && (forall i :: 0 <= i < a ==> ps[i].category == c1)
    && (forall i :: a <= i < b ==> ps[i].category == c2)
    && (forall i :: b <= i < |ps| ==> ps[i].category == c3)
  }

  predicate AllOf(ps: seq<Removal>, c: string) {
    forall i :: 0 <= i < |ps| ==> ps[i].category == c
  }

  lemma PhasedConcat(x: seq<Removal>, y: seq<Removal>, z: seq<Removal>, c1: string, c2: string, c3: string)
    requires AllOf(x, c1) && AllOf(y, c2) && AllOf(z, c3)
    ensures Phased(x + y + z, |x|, |x| + |y|, c1, c2, c3)
  {
    var ps := x + y + z;
    assert forall i :: 0 <= i < |x| ==> ps[i] == x[i];
    assert forall i :: |x| <= i < |x| + |y| ==> ps[i] == y[i - |x|];
    assert forall i :: |x| + |y| <= i < |ps| ==> ps[i] == z[i - |x| - |y|];
  }

  /** The recorded removals come in step order: first the system's rules
      (none when the system has no table), then the universal rules, then
      the blacklist (none when it is empty); no more are recorded than
      characters removed before normalisation. */
  lemma CleanStepOrder(e: Engine, table: seq<(string, seq<Rule>)>, universal: seq<Rule>,
                       blacklist: seq<Item>, text: string, system: string)
    requires text != ""
    ensures var ps := CleanWith(e, table, universal, blacklist, text, system).stats.removedPatterns;
      var steps := CleanSteps(e, table, universal, blacklist, text, system);
      var a := |steps.0.patterns|;
      var b := a + |steps.1.patterns|;
      && |ps| <= |text|
      && Phased(ps, a, b, system + "-specific", "universal", "custom-blacklist")
      && (Lookup(table, system).None? ==> a == 0)
      && (|blacklist| == 0 ==> b == |ps|)
  {
    var steps := CleanSteps(e, table, universal, blacklist, text, system);
    var ps := steps.0.patterns + steps.1.patterns + steps.2.patterns;
    assert CleanWith(e, table, universal, blacklist, text, system).stats.removedPatterns == ps;
    PhasedConcat(steps.0.patterns, steps.1.patterns, steps.2.patterns,
                 system + "-specific", "universal", "custom-blacklist");
  }

  /** Cleaning only deletes or collapses text, so the final length is at
      most the original one and the reduction percentage is not negative. */
  lemma CleanShrinks(e: Engine, table: seq<(string, seq<Rule>)>, universal: seq<Rule>,
                     blacklist: seq<Item>, text: string, system: string)
    requires MatchesAtLeast(e, SpaceRuns, 1) && MatchesAtLeast(e, NewlineRuns, 3)
    requires text != ""
    ensures var st := CleanWith(e, table, universal, blacklist, text, system).stats;
      st.finalLength <= st.originalLength && Reduction(st) >= 0.0
  {
    var steps := CleanSteps(e, table, universal, blacklist, text, system);
    NormalizeShrinks(e, steps.2.text);
    var st := CleanWith(e, table, universal, blacklist, text, system).stats;
    assert st.finalLength <= st.originalLength;
    RatioAtMostOne(st.finalLength, st.originalLength);
  }

  lemma RatioAtMostOne(a: nat, b: nat)
    requires 0 < b && a <= b
    ensures a as real / b as real <= 1.0
  {
  }

  // ---------------------------------------------------------------------
  // Blacklist maintenance and statistics
  // ---------------------------------------------------------------------

  /** The argument of `setCustomBlacklist`: an array, or any single value. */
  datatype BlacklistArg = Many(items: seq<Item>) | One(item: Item)

  /** `setCustomBlacklist`: an array is taken as is, a single value is wrapped. */
  function SetCustomBlacklist(arg: BlacklistArg): (r: seq<Item>)
    ensures arg.One? ==> |r| == 1 && r[0] == arg.item
    ensures arg.Many? ==> r == arg.items
  {
    match arg
    case Many(items) => items
    case One(item) => [item]
  }

  /** `addToBlacklist`: appends a truthy item that is not yet listed. */
  function AddToBlacklist(bl: seq<Item>, item: Item): (r: seq<Item>)
    ensures Truthy(item) ==> item in r
    ensures forall x :: x in r <==> x in bl || (x == item && Truthy(item))
    ensures |r| <= |bl| + 1
  {
    if Truthy(item) && item !in bl then bl + [item] else bl
  }

  /** No entry is listed twice. */
  predicate NoDuplicates(bl: seq<Item>) {
    forall i, j :: 0 <= i < j < |bl| ==> bl[i] != bl[j]
  }

  /** `bl.indexOf(item)`, or -1. */
  function IndexOf(bl: seq<Item>, item: Item): (r: int)
    ensures -1 <= r < |bl|
    ensures r == -1 <==> item !in bl
    ensures r >= 0 ==> bl[r] == item && forall j :: 0 <= j < r ==> bl[j] != item
  {
    if |bl| == 0 then -1
    else if bl[0] == item then 0
    else
      var k := IndexOf(bl[1..], item);
      assert forall j :: 1 <= j < |bl| ==> bl[j] == bl[1..][j - 1];
      if k == -1 then -1 else k + 1
  }

  /** `removeFromBlacklist`: deletes the first occurrence, if any. */
  function RemoveFromBlacklist(bl: seq<Item>, item: Item): (r: seq<Item>)
    ensures item !in bl ==> r == bl
    ensures item in bl ==> |r| == |bl| - 1 && multiset(r) == multiset(bl) - multiset{item}
  {
    var k := IndexOf(bl, item);
    if k >= 0 then
      assert bl == bl[..k] + [bl[k]] + bl[k + 1..];
      bl[..k] + bl[k + 1..]
    else bl
  }

  /** Adding keeps the list free of duplicates, adding twice is adding once,
      and removing what was just added restores the list. */
  lemma BlacklistRoundTrip(bl: seq<Item>, item: Item)
    ensures NoDuplicates(bl) ==> NoDuplicates(AddToBlacklist(bl, item))
    ensures AddToBlacklist(AddToBlacklist(bl, item), item) == AddToBlacklist(bl, item)
    ensures Truthy(item) && item !in bl ==> RemoveFromBlacklist(AddToBlacklist(bl, item), item) == bl
  {
    if Truthy(item) && item !in bl {
      var r := bl + [item];
      assert IndexOf(r, item) == |bl|;
      assert r[..|bl|] == bl;
    }
  }

  /** `getStatistics`: the size of every system table in declaration order,
      then the universal rules and the custom blacklist. */
  function GetStatistics(table: seq<(string, seq<Rule>)>, universal: seq<Rule>, bl: seq<Item>): (r: seq<(string, nat)>)
    ensures |r| == |table| + 2
    ensures forall i :: 0 <= i < |table| ==> r[i] == (table[i].0, |table[i].1|)
    ensures r[|table|] == ("universal", |universal|) && r[|table| + 1] == ("customBlacklist", |bl|)
  {
    seq(|table|, i requires 0 <= i < |table| => (table[i].0, |table[i].1|))
      + [("universal", |universal|), ("customBlacklist", |bl|)]
  }
}
