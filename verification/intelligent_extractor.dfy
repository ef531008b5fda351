/** The simplified Python pipeline of test_intelligent_extractor.py: the
    extracted text is cut into documents at lines naming a document kind
    once the current document is long enough, each document is classified
    from its beginning, and noise lines are dropped from a document's text.
    Python's `strip`, `upper`, `isdigit` and `in` are those of the Strings
    and CaseMap modules. */
module IntelligentExtractor {
  import opened Wrappers
  import opened Seqs
  import opened Strings
  import CaseMap

  /** Python `str.strip()`. */
  function Strip(s: string): (r: string)
    ensures |r| <= |s|
  {
    Trim(s, IsPySpace)
  }

  /** `any(p in s for p in patterns)`. */
  predicate ContainsAny(s: string, patterns: seq<string>) {
    exists k :: 0 <= k < |patterns| && Contains(s, patterns[k])
  }

  // ===== Documents =====

  /** A document is closed only once it has more than this many lines. */
  const MinLines := 20

  /** How many characters of a document its kind is read from. */
  const ClassifyPrefix := 500

  const BreakPatterns := ["EXCELENTÍSSIMO", "EXMO", "PETIÇÃO", "CONTESTAÇÃO", "SENTENÇA", "DECISÃO", "DESPACHO", "PODER JUDICIÁRIO"]

  /** Whether a line names a document kind, after stripping and upper-casing. */
  function IsBreak(patterns: seq<string>): string -> bool {
    (line: string) => ContainsAny(CaseMap.ToUpper(Strip(line)), patterns)
  }

  /** The documents cut from `lines`, `cur` holding the lines of the document being read. */
  function Segments(isBreak: string -> bool, lines: seq<string>, cur: seq<string>): seq<seq<string>>
    decreases |lines|
  {
    if |lines| == 0 then (if |cur| > 0 then [cur] else [])
    else if isBreak(lines[0]) && |cur| > MinLines then [cur] + Segments(isBreak, lines[1..], [lines[0]])
    else Segments(isBreak, lines[1..], cur + [lines[0]])
  }

  /** No line after the first was a cut: none of them names a document
      kind while the document before it had more than `MinLines` lines. */
  predicate Uncut(isBreak: string -> bool, s: seq<string>) {
    forall i :: 1 <= i < |s| ==> !(isBreak(s[i]) && i > MinLines)
  }

  /** Every document is non-empty and holds no missed cut. */
  predicate AllUncut(isBreak: string -> bool, segs: seq<seq<string>>) {
    forall k :: 0 <= k < |segs| ==> |segs[k]| > 0 && Uncut(isBreak, segs[k])
  }

  /** Document `k` opens with a line naming a kind, following a document
      of more than `MinLines` lines. */
  predicate CutAt(isBreak: string -> bool, segs: seq<seq<string>>, k: nat)
    requires 1 <= k < |segs|
  {
    |segs[k]| > 0 && isBreak(segs[k][0]) && |segs[k - 1]| > MinLines
  }

  /** Every document after the first was cut where the rule allows. */
  ghost predicate CutsAtBreaks(isBreak: string -> bool, segs: seq<seq<string>>) {
    forall k :: 1 <= k < |segs| ==> CutAt(isBreak, segs, k)
  }

  ghost predicate WellCut(isBreak: string -> bool, segs: seq<seq<string>>) {
    AllUncut(isBreak, segs) && CutsAtBreaks(isBreak, segs)
  }

  /** The documents hold exactly the lines read, in order. */
  lemma {:induction false} SegmentsContent(isBreak: string -> bool, lines: seq<string>, cur: seq<string>)
    ensures Flatten(Segments(isBreak, lines, cur)) == cur + lines
    decreases |lines|
  {
    if |lines| == 0 {
      assert cur + lines == cur;
      if |cur| > 0 {
        assert Flatten([cur]) == cur + Flatten([cur][1..]);
      }
    } else if isBreak(lines[0]) && |cur| > MinLines {
      SegmentsContent(isBreak, lines[1..], [lines[0]]);
      var rest := Segments(isBreak, lines[1..], [lines[0]]);
      assert ([cur] + rest)[1..] == rest;
      assert [lines[0]] + lines[1..] == lines;
    } else {
      SegmentsContent(isBreak, lines[1..], cur + [lines[0]]);
      assert (cur + [lines[0]]) + lines[1..] == cur + lines;
    }
  }

  /** The cuts fall exactly where a line names a kind after more than `MinLines` lines. */
  lemma {:induction false} SegmentsCut(isBreak: string -> bool, lines: seq<string>, cur: seq<string>)
    requires Uncut(isBreak, cur)
    ensures WellCut(isBreak, Segments(isBreak, lines, cur))
    ensures |cur| > 0 ==> |Segments(isBreak, lines, cur)| > 0 && Segments(isBreak, lines, cur)[0][0] == cur[0]
    decreases |lines|
  {
    if |lines| > 0 {
      if isBreak(lines[0]) && |cur| > MinLines {
        SegmentsCut(isBreak, lines[1..], [lines[0]]);
        var rest := Segments(isBreak, lines[1..], [lines[0]]);
        assert Segments(isBreak, lines, cur) == [cur] + rest;
        CutBefore(isBreak, cur, rest);
      } else {
        var next := cur + [lines[0]];
        assert forall i :: 1 <= i < |cur| ==> next[i] == cur[i];
        SegmentsCut(isBreak, lines[1..], next);
      }
    }
  }

  /** A document of more than `MinLines` lines, followed by well-cut
      documents the first of which opens with a kind-naming line, is well cut. */
  lemma CutBefore(isBreak: string -> bool, cur: seq<string>, rest: seq<seq<string>>)
    requires Uncut(isBreak, cur) && |cur| > MinLines
    requires WellCut(isBreak, rest) && |rest| > 0 && isBreak(rest[0][0])
    ensures WellCut(isBreak, [cur] + rest)
  {
    var segs := [cur] + rest;
    assert forall k :: 1 <= k < |segs| ==> segs[k] == rest[k - 1];
    forall k | 1 <= k < |segs|
      ensures CutAt(isBreak, segs, k)
    {
      if k > 1 {
        assert CutAt(isBreak, rest, k - 1);
      }
    }
  }

  datatype Document = Document(number: nat, kind: string, lines: nat, chars: nat, text: string)

  /** The documents of the cut, numbered from 1, each with its kind, line
      count, length and text. */
  function Documents(classify: string -> string, segs: seq<seq<string>>): (r: seq<Document>)
    ensures |r| == |segs|
    ensures forall k :: 0 <= k < |r| ==> (&& r[k].number == k + 1 && r[k].lines == |segs[k]|
                                          && r[k].text == Join(segs[k], "\n") && r[k].chars == |r[k].text|
                                          && r[k].kind == classify(Take(r[k].text, ClassifyPrefix)))
  {
    seq(|segs|, k requires 0 <= k < |segs| =>
      var text := Join(segs[k], "\n");
      Document(k + 1, classify(Take(text, ClassifyPrefix)), |segs[k]|, |text|, text))
  }

  /** `detect_documents` with the given kind names and classifier. */
  function DetectDocumentsWith(isBreak: string -> bool, classify: string -> string, text: string): (r: seq<Document>)
    ensures |r| >= 1
    ensures forall k :: 0 <= k < |r| ==> r[k].number == k + 1
  {
    var lines := Split(text, '\n');
    SegmentsExist(isBreak, lines, []);
    Documents(classify, Segments(isBreak, lines, []))
  }

  /** Something read makes at least one document. */
  lemma {:induction false} SegmentsExist(isBreak: string -> bool, lines: seq<string>, cur: seq<string>)
    requires |cur| + |lines| > 0
    ensures |Segments(isBreak, lines, cur)| > 0
    decreases |lines|
  {
    if |lines| > 0 {
      if !(isBreak(lines[0]) && |cur| > MinLines) {
        SegmentsExist(isBreak, lines[1..], cur + [lines[0]]);
      }
    }
  }

  /** `detect_documents`. */
  function DetectDocuments(text: string): seq<Document> {
    DetectDocumentsWith(IsBreak(BreakPatterns), Classify, text)
  }

  function Texts(docs: seq<Document>): (r: seq<string>)
    ensures |r| == |docs|
    ensures forall k :: 0 <= k < |docs| ==> r[k] == docs[k].text
  {
    Seqs.Map((d: Document) => d.text, docs)
  }

  lemma {:induction false} JoinAppend(a: seq<string>, b: seq<string>, sep: string)
    requires |a| > 0 && |b| > 0
    ensures Join(a + b, sep) == Join(a, sep) + sep + Join(b, sep)
  {
    if |a| == 1 {
      assert (a + b)[1..] == b;
    } else {
      JoinAppend(a[1..], b, sep);
      assert (a + b)[1..] == a[1..] + b;
    }
  }

  /** Joining the joined groups is joining all their pieces. */
  lemma {:induction false} JoinFlatten(segs: seq<seq<string>>, sep: string)
    requires forall k :: 0 <= k < |segs| ==> |segs[k]| > 0
    ensures Join(seq(|segs|, k requires 0 <= k < |segs| => Join(segs[k], sep)), sep) == Join(Flatten(segs), sep)
  {
    if |segs| > 1 {
      JoinFlatten(segs[1..], sep);
      var joined := seq(|segs|, k requires 0 <= k < |segs| => Join(segs[k], sep));
      var tail := seq(|segs[1..]|, k requires 0 <= k < |segs[1..]| => Join(segs[1..][k], sep));
      assert joined[1..] == tail;
      FlattenNonEmpty(segs[1..]);
      JoinAppend(segs[0], Flatten(segs[1..]), sep);
    } else if |segs| == 1 {
      assert Flatten(segs) == segs[0] + Flatten(segs[1..]);
      assert segs[0] + Flatten(segs[1..]) == segs[0];
    }
  }

  lemma FlattenNonEmpty(segs: seq<seq<string>>)
    requires |segs| > 0 && |segs[0]| > 0
    ensures |Flatten(segs)| > 0
  {
  }

  /** Joining the documents' texts with newlines restores the input text,
      and the documents are cut exactly where a line names a kind after
      more than 20 lines. */
  lemma DetectDocumentsSpec(isBreak: string -> bool, classify: string -> string, text: string)
    ensures Join(Texts(DetectDocumentsWith(isBreak, classify, text)), "\n") == text
    ensures WellCut(isBreak, Segments(isBreak, Split(text, '\n'), []))
  {
    var lines := Split(text, '\n');
    var segs := Segments(isBreak, lines, []);
    SegmentsCut(isBreak, lines, []);
    SegmentsContent(isBreak, lines, []);
    assert [] + lines == lines;
    var docs := DetectDocumentsWith(isBreak, classify, text);
    assert Texts(docs) == seq(|segs|, k requires 0 <= k < |segs| => Join(segs[k], "\n"));
    JoinFlatten(segs, "\n");
    JoinSplit(text, '\n');
  }

  // ===== Classification =====

  /** A kind and the words any one of which assigns it. */
  datatype KindRule = KindRule(words: seq<string>, kind: string)

  const Fallback := "DOCUMENTO"

  /** The kinds in priority order. */
  const KindRules := [
    KindRule(["PETIÇÃO", "EXCELENTÍSSIMO"], "PETIÇÃO INICIAL"),
    KindRule(["CONTESTAÇÃO"], "CONTESTAÇÃO"),
    KindRule(["SENTENÇA"], "SENTENÇA"),
    KindRule(["DECISÃO"], "DECISÃO"),
    KindRule(["DESPACHO", "CITE-SE"], "DESPACHO"),
    KindRule(["ACÓRDÃO"], "ACÓRDÃO")
  ]

  /** The kind of the first rule one of whose words occurs, else the fallback. */
  function FirstKind(rules: seq<KindRule>, upper: string): string {
    if |rules| == 0 then Fallback
    else if ContainsAny(upper, rules[0].words) then rules[0].kind
    else FirstKind(rules[1..], upper)
  }

  /** No rule before the `k`-th has a word that occurs. */
  predicate NoneBefore(rules: seq<KindRule>, upper: string, k: nat) {
    forall j :: 0 <= j < k && j < |rules| ==> !ContainsAny(upper, rules[j].words)
  }

  /** The first rule with a word that occurs decides. */
  lemma {:induction false} FirstKindDecides(rules: seq<KindRule>, upper: string, k: nat)
    requires k < |rules| && ContainsAny(upper, rules[k].words) && NoneBefore(rules, upper, k)
    ensures FirstKind(rules, upper) == rules[k].kind
  {
    if k > 0 {
      assert !ContainsAny(upper, rules[0].words);
      assert rules[1..][k - 1] == rules[k];
      assert NoneBefore(rules[1..], upper, k - 1) by {
        forall j | 0 <= j < k - 1 ensures !ContainsAny(upper, rules[1..][j].words) {
          assert rules[1..][j] == rules[j + 1];
        }
      }
      FirstKindDecides(rules[1..], upper, k - 1);
    }
  }

  /** With no rule's word occurring, the kind is the fallback. */
  lemma {:induction false} FirstKindFallback(rules: seq<KindRule>, upper: string)
    requires NoneBefore(rules, upper, |rules|)
    ensures FirstKind(rules, upper) == Fallback
  {
    if |rules| > 0 {
      assert !ContainsAny(upper, rules[0].words);
      assert NoneBefore(rules[1..], upper, |rules| - 1) by {
        forall j | 0 <= j < |rules| - 1 ensures !ContainsAny(upper, rules[1..][j].words) {
          assert rules[1..][j] == rules[j + 1];
        }
      }
      FirstKindFallback(rules[1..], upper);
    }
  }

  /** `_classify_document`. */
  function Classify(beginning: string): string {
    FirstKind(KindRules, CaseMap.ToUpper(beginning))
  }

  /** The kind is one of the rules' kinds or the fallback. */
  lemma {:induction false} FirstKindRange(rules: seq<KindRule>, upper: string)
    ensures FirstKind(rules, upper) == Fallback || exists k :: 0 <= k < |rules| && FirstKind(rules, upper) == rules[k].kind
  {
    if |rules| > 0 && !ContainsAny(upper, rules[0].words) {
      FirstKindRange(rules[1..], upper);
      if FirstKind(rules, upper) != Fallback {
        var k :| 0 <= k < |rules[1..]| && FirstKind(rules[1..], upper) == rules[1..][k].kind;
        assert rules[1..][k] == rules[k + 1];
      }
    }
  }


  /** A beginning naming a petition or addressing a judge is a petition,
      whatever else it names; one naming none of the words is a plain document. */
  lemma ClassifyPriority(beginning: string)
    ensures Contains(CaseMap.ToUpper(beginning), "PETIÇÃO") ==> Classify(beginning) == "PETIÇÃO INICIAL"
    ensures NoneBefore(KindRules, CaseMap.ToUpper(beginning), |KindRules|) ==> Classify(beginning) == Fallback
  {
    var upper := CaseMap.ToUpper(beginning);
    if Contains(upper, "PETIÇÃO") {
      assert KindRules[0].words[0] == "PETIÇÃO";
      assert ContainsAny(upper, KindRules[0].words);
    }
    if NoneBefore(KindRules, upper, |KindRules|) {
      FirstKindFallback(KindRules, upper);
    }
  }

  // ===== Cleaning =====

  const NoisePatterns := ["ASSINADO DIGITALMENTE", "ASSINADO ELETRONICAMENTE", "SHA-", "MD5:", "CERTIFICADO DIGITAL",
                          "ICP-BRASIL", "AC-", "CÓDIGO VERIFICADOR", "PROTOCOLO", "PÁG.", "PÁGINA",
                          "PODER JUDICIÁRIO DO ESTADO"]

  predicate IsHexDigit(c: char) {
    IsAsciiDigit(c) || 'a' <= c <= 'f' || 'A' <= c <= 'F'
  }

  /** Python `str.isdigit` on Latin-1: the ASCII digits and the superscripts one to three. */
  predicate IsPyDigit(c: char) {
    IsAsciiDigit(c) || c == '\U{B2}' || c == '\U{B3}' || c == '\U{B9}'
  }

  /** A stripped line longer than 30 characters made of hexadecimal digits and spaces. */
  predicate HexLine(t: string) {
    |t| > 30 && forall k :: 0 <= k < |t| ==> t[k] == ' ' || IsHexDigit(t[k])
  }

  /** A stripped line shorter than 20 characters, unchanged by upper-casing, without digits. */
  predicate ShortCaps(t: string) {
    |t| < 20 && t == CaseMap.ToUpper(t) && forall k :: 0 <= k < |t| ==> !IsPyDigit(t[k])
  }

  /** How much a line adds to `removed_count`: one for each of a noise
      word, a hexadecimal hash and a short upper-case line; a blank line adds nothing. */
  function NoiseCount(noise: seq<string>, line: string): (n: nat)
    ensures n <= 3
  {
    var t := Strip(line);
    if t == "" then 0
    else (if ContainsAny(CaseMap.ToUpper(t), noise) then 1 else 0) + (if HexLine(t) then 1 else 0)
         + (if ShortCaps(t) then 1 else 0)
  }

  /** A line survives exactly when it is blank or shows none of the three signs of noise. */
  function Keeps(noise: seq<string>): string -> bool {
    (line: string) => NoiseCount(noise, line) == 0
  }

  function NoiseTotal(noise: seq<string>, lines: seq<string>): nat {
    if |lines| == 0 then 0 else NoiseCount(noise, lines[0]) + NoiseTotal(noise, lines[1..])
  }

  datatype Cleaned = Cleaned(text: string, removed: nat)

  /** `clean_text_intelligent` with the given noise words. */
  function CleanWith(noise: seq<string>, text: string): (r: Cleaned)
    ensures r.text == Join(Filter(Keeps(noise), Split(text, '\n')), "\n")
    ensures r.removed == NoiseTotal(noise, Split(text, '\n'))
  {
    var lines := Split(text, '\n');
    Cleaned(Join(Filter(Keeps(noise), lines), "\n"), NoiseTotal(noise, lines))
  }

  /** `clean_text_intelligent`. */
  function CleanTextIntelligent(text: string): Cleaned {
    CleanWith(NoisePatterns, text)
  }

  /** The kept lines are an order-preserving selection of the input lines
      that includes every blank line, and the cleaned text splits back into them. */
  lemma CleanKeeps(noise: seq<string>, text: string)
    ensures var lines := Split(text, '\n');
      var kept := Filter(Keeps(noise), lines);
      && Subseq(kept, lines)
      && (forall l :: l in lines && Strip(l) == "" ==> l in kept)
      && (|kept| > 0 ==> Split(CleanWith(noise, text).text, '\n') == kept)
  {
    var lines := Split(text, '\n');
    var kept := Filter(Keeps(noise), lines);
    FilterSubseq(Keeps(noise), lines);
    FilterMembers(Keeps(noise), lines);
    forall l | l in lines && Strip(l) == "" ensures l in kept {
      assert Keeps(noise)(l);
    }
    if |kept| > 0 {
      forall i | 0 <= i < |kept| ensures '\n' !in kept[i] {
        assert kept[i] in lines;
      }
      SplitJoin(kept, '\n');
    }
  }

  /** `removed_count` is at least the number of dropped lines and at most three times it. */
  lemma {:induction false} RemovedBounds(noise: seq<string>, lines: seq<string>)
    ensures var dropped := |lines| - |Filter(Keeps(noise), lines)|;
      dropped <= NoiseTotal(noise, lines) <= 3 * dropped
  {
    FilterLength(Keeps(noise), lines);
    if |lines| > 0 {
      RemovedBounds(noise, lines[1..]);
      FilterLength(Keeps(noise), lines[1..]);
      assert Keeps(noise)(lines[0]) == (NoiseCount(noise, lines[0]) == 0);
    }
  }
}
