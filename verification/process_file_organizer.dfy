/** `ProcessFileOrganizer`: arranges the analysed documents of a case as a
    physical case file would be bound — sorted by procedural order, grouped
    into one section per kind of document, with a summary and the metadata
    of the case taken from the first document that carries each field. */
module ProcessFileOrganizer {
  import opened Wrappers
  import opened Regex
  import opened Strings
  import Seqs
  import StableSort
  import LegalDocumentAnalyzer

  type Analysis = LegalDocumentAnalyzer.Analysis

  /** A document as it reaches the organizer; an empty string stands for a
      missing (falsy) property, `fileName` is `doc.file?.name`. */
  datatype Source = Source(text: string, cleanText: string, filename: string, fileName: string)

  /** A document together with its analysis (`{...doc, analysis}`). */
  datatype Doc = Doc(src: Source, analysis: Analysis)

  /** `doc.text || doc.cleanText || ''`. */
  function DocText(s: Source): (r: string)
    ensures r == "" ==> s.text == "" && s.cleanText == ""
    ensures s.text != "" ==> r == s.text
  {
    if s.text != "" then s.text else s.cleanText
  }

  /** `doc.filename || doc.file?.name || fallback`. */
  function FileLabel(s: Source, fallback: string): (r: string)
    ensures s.filename != "" ==> r == s.filename
    ensures s.filename == "" && s.fileName == "" ==> r == fallback
  {
    if s.filename != "" then s.filename
    else if s.fileName != "" then s.fileName
    else fallback
  }

  // ---------------------------------------------------------------------
  // sortByProcessOrder
  // ---------------------------------------------------------------------

  function OrderKey(d: Doc): int {
    d.analysis.order
  }

  /** `sortByProcessOrder`: `Array.prototype.sort` with the comparator
      `orderA - orderB` (0 on equal orders), which is stable. */
  function SortByProcessOrder(docs: seq<Doc>): (r: seq<Doc>)
    ensures |r| == |docs|
  {
    StableSort.Sort(docs, OrderKey)
  }

  /** The sorted documents are a permutation of the input, ascending by
      procedural order, and documents of equal order keep their input order. */
  lemma SortByProcessOrderSpec(docs: seq<Doc>)
    ensures multiset(SortByProcessOrder(docs)) == multiset(docs)
    ensures forall i, j :: 0 <= i < j < |docs| ==>
      SortByProcessOrder(docs)[i].analysis.order <= SortByProcessOrder(docs)[j].analysis.order
    ensures forall k :: StableSort.WithKey(SortByProcessOrder(docs), OrderKey, k)
                     == StableSort.WithKey(docs, OrderKey, k)
  {
    var r := SortByProcessOrder(docs);
    assert StableSort.SortedBy(r, OrderKey);
    forall k ensures StableSort.WithKey(r, OrderKey, k) == StableSort.WithKey(docs, OrderKey, k) {
      StableSort.SortStable(docs, OrderKey, k);
    }
  }

  // ---------------------------------------------------------------------
  // groupByType and countDocumentTypes: insertion-ordered object keys
  // ---------------------------------------------------------------------

  /** One property of a JavaScript object used as a multimap: the key and
      the values pushed under it. */
  datatype Bucket<T> = Bucket(key: string, items: seq<T>)

  function Keys<T>(gs: seq<Bucket<T>>): (r: seq<string>)
    ensures |r| == |gs|
    ensures forall i :: 0 <= i < |gs| ==> r[i] == gs[i].key
  {
    seq(|gs|, i requires 0 <= i < |gs| => gs[i].key)
  }

  /** Position of key `k` among `ks`, if present. */
  function KeyIndex(ks: seq<string>, k: string): (r: Option<nat>)
    ensures r.Some? ==> r.value < |ks| && ks[r.value] == k
    ensures r.None? <==> forall i :: 0 <= i < |ks| ==> ks[i] != k
  {
    if |ks| == 0 then None
    else if ks[|ks| - 1] == k then Some(|ks| - 1)
    else KeyIndex(ks[..|ks| - 1], k)
  }

  /** One loop step of `groupByType`: `groups[type] = groups[type] || []`,
      then push; a new key goes last, as object keys keep insertion order. */
  function Place<T>(gs: seq<Bucket<T>>, x: T, key: T -> string): (r: seq<Bucket<T>>)
  {
    match KeyIndex(Keys(gs), key(x))
    case Some(i) => gs[i := Bucket(gs[i].key, gs[i].items + [x])]
    case None => gs + [Bucket(key(x), [x])]
  }

  /** The loop of `groupByType` over `xs`, keyed by `key`. */
  function GroupBy<T>(xs: seq<T>, key: T -> string): seq<Bucket<T>>
  {
    if |xs| == 0 then []
    else Place(GroupBy(xs[..|xs| - 1], key), xs[|xs| - 1], key)
  }

  function TypeKey(d: Doc): string {
    d.analysis.key
  }

  function NameKey(d: Doc): string {
    d.analysis.name
  }

  /** `groupByType`: documents grouped by `analysis.type`. */
  function GroupByType(docs: seq<Doc>): seq<Bucket<Doc>> {
    GroupBy(docs, TypeKey)
  }

  /** The elements of `xs` whose key is `k`, in input order. */
  function Having<T>(xs: seq<T>, key: T -> string, k: string): (r: seq<T>)
    ensures |r| <= |xs|
  {
    if |xs| == 0 then []
    else Having(xs[..|xs| - 1], key, k) + (if key(xs[|xs| - 1]) == k then [xs[|xs| - 1]] else [])
  }

  /** Each bucket holds exactly the elements of its key, in input order. */
  predicate Exact<T(==)>(gs: seq<Bucket<T>>, xs: seq<T>, key: T -> string) {
    forall i :: 0 <= i < |gs| ==> gs[i].items == Having(xs, key, gs[i].key)
  }

  predicate NonEmpty<T>(gs: seq<Bucket<T>>) {
    forall i :: 0 <= i < |gs| ==> |gs[i].items| > 0
  }

  predicate DistinctKeys<T>(gs: seq<Bucket<T>>) {
    forall i, j :: 0 <= i < j < |gs| ==> gs[i].key != gs[j].key
  }

  /** Every element's key has a bucket. */
  predicate Covers<T>(gs: seq<Bucket<T>>, xs: seq<T>, key: T -> string) {
    forall j :: 0 <= j < |xs| ==> KeyIndex(Keys(gs), key(xs[j])).Some?
  }

  /** What the grouping promises: each bucket holds exactly the elements of
      its key in input order, no bucket is empty, no key occurs twice, and
      every element's key has a bucket. */
  predicate Grouped<T(==)>(gs: seq<Bucket<T>>, xs: seq<T>, key: T -> string) {
    Exact(gs, xs, key) && NonEmpty(gs) && DistinctKeys(gs) && Covers(gs, xs, key)
  }

  lemma HavingNone<T>(xs: seq<T>, key: T -> string, k: string)
    requires forall j :: 0 <= j < |xs| ==> key(xs[j]) != k
    ensures Having(xs, key, k) == []
  {
    if |xs| > 0 {
      HavingNone(xs[..|xs| - 1], key, k);
    }
  }

  lemma HavingSnoc<T>(xs: seq<T>, x: T, key: T -> string, k: string)
    ensures Having(xs + [x], key, k) == Having(xs, key, k) + (if key(x) == k then [x] else [])
  {
    assert (xs + [x])[..|xs|] == xs;
  }

  /** A placed element either joins an existing key or adds its key last. */
  lemma PlaceKeys<T>(gs: seq<Bucket<T>>, x: T, key: T -> string)
    ensures KeyIndex(Keys(gs), key(x)).Some? ==> Keys(Place(gs, x, key)) == Keys(gs)
    ensures KeyIndex(Keys(gs), key(x)).None? ==> Keys(Place(gs, x, key)) == Keys(gs) + [key(x)]
  {
  }

  lemma PlaceDistinct<T>(gs: seq<Bucket<T>>, x: T, key: T -> string)
    requires DistinctKeys(gs)
    ensures DistinctKeys(Place(gs, x, key))
  {
    PlaceKeys(gs, x, key);
    var r := Place(gs, x, key);
    assert forall i :: 0 <= i < |r| ==> r[i].key == Keys(r)[i];
  }

  lemma PlaceNonEmpty<T>(gs: seq<Bucket<T>>, x: T, key: T -> string)
    requires NonEmpty(gs)
    ensures NonEmpty(Place(gs, x, key))
  {
  }

  lemma {:induction false} PlaceCovers<T>(gs: seq<Bucket<T>>, xs: seq<T>, x: T, key: T -> string)
    requires Covers(gs, xs, key)
    ensures Covers(Place(gs, x, key), xs + [x], key)
  {
    PlaceKeys(gs, x, key);
    var r := Place(gs, x, key);
    var ys := xs + [x];
    forall j | 0 <= j < |ys| ensures KeyIndex(Keys(r), key(ys[j])).Some? {
      if j < |xs| {
        var m := KeyIndex(Keys(gs), key(xs[j])).value;
        assert Keys(r)[m] == key(ys[j]);
      } else if KeyIndex(Keys(gs), key(x)).None? {
        assert Keys(r)[|gs|] == key(ys[j]);
      }
    }
  }

  lemma {:induction false} PlaceExact<T>(gs: seq<Bucket<T>>, xs: seq<T>, x: T, key: T -> string)
    requires Exact(gs, xs, key) && Covers(gs, xs, key) && DistinctKeys(gs)
    ensures Exact(Place(gs, x, key), xs + [x], key)
  {
    var r := Place(gs, x, key);
    var ys := xs + [x];
    forall k ensures Having(ys, key, k) == Having(xs, key, k) + (if key(x) == k then [x] else []) {
      HavingSnoc(xs, x, key, k);
    }
    match KeyIndex(Keys(gs), key(x))
    case Some(i) =>
      forall m | 0 <= m < |r| ensures r[m].items == Having(ys, key, r[m].key) {
        if m != i {
          assert r[m] == gs[m] && gs[m].key != gs[i].key;
        }
      }
    case None =>
      forall j | 0 <= j < |xs| ensures key(xs[j]) != key(x) {
        var m := KeyIndex(Keys(gs), key(xs[j])).value;
        assert gs[m].key == key(xs[j]);
      }
      HavingNone(xs, key, key(x));
      forall m | 0 <= m < |r| ensures r[m].items == Having(ys, key, r[m].key) {
        if m < |gs| {
          assert r[m] == gs[m] && gs[m].key != key(x);
        }
      }
  }

  /** `groupByType` puts every element in the bucket of its key and nowhere
      else, in input order; buckets are non-empty and their keys distinct. */
  lemma {:induction false} GroupByGrouped<T>(xs: seq<T>, key: T -> string)
    ensures Grouped(GroupBy(xs, key), xs, key)
  {
    if |xs| > 0 {
      var init := xs[..|xs| - 1];
      var gs := GroupBy(init, key);
      var x := xs[|xs| - 1];
      GroupByGrouped(init, key);
      assert init + [x] == xs;
      PlaceExact(gs, init, x, key);
      PlaceNonEmpty(gs, x, key);
      PlaceDistinct(gs, x, key);
      PlaceCovers(gs, init, x, key);
    }
  }

  /** Total number of elements over all buckets. */
  function Total<T>(gs: seq<Bucket<T>>): nat {
    if |gs| == 0 then 0 else |gs[0].items| + Total(gs[1..])
  }

  lemma {:induction false} TotalUpdate<T>(gs: seq<Bucket<T>>, i: nat, b: Bucket<T>)
    requires i < |gs|
    ensures Total(gs[i := b]) == Total(gs) - |gs[i].items| + |b.items|
  {
    if i > 0 {
      TotalUpdate(gs[1..], i - 1, b);
      assert gs[i := b][1..] == gs[1..][i - 1 := b];
    } else {
      assert gs[i := b][1..] == gs[1..];
    }
  }

  lemma {:induction false} TotalAppend<T>(gs: seq<Bucket<T>>, b: Bucket<T>)
    ensures Total(gs + [b]) == Total(gs) + |b.items|
  {
    if |gs| > 0 {
      TotalAppend(gs[1..], b);
      assert (gs + [b])[1..] == gs[1..] + [b];
    }
  }

  /** The buckets together hold as many elements as the input. */
  lemma {:induction false} GroupByTotal<T>(xs: seq<T>, key: T -> string)
    ensures Total(GroupBy(xs, key)) == |xs|
  {
    if |xs| > 0 {
      var gs := GroupBy(xs[..|xs| - 1], key);
      var x := xs[|xs| - 1];
      GroupByTotal(xs[..|xs| - 1], key);
      match KeyIndex(Keys(gs), key(x))
      case Some(i) => TotalUpdate(gs, i, Bucket(gs[i].key, gs[i].items + [x]));
      case None => TotalAppend(gs, Bucket(key(x), [x]));
    }
  }

  /** One loop step of `countDocumentTypes`: `counts[name] = (counts[name] || 0) + 1`. */
  function Bump(cs: seq<(string, nat)>, k: string): (r: seq<(string, nat)>)
  {
    var names := seq(|cs|, i requires 0 <= i < |cs| => cs[i].0);
    match KeyIndex(names, k)
    case Some(i) => cs[i := (k, cs[i].1 + 1)]
    case None => cs + [(k, 1)]
  }

  /** The loop of `countDocumentTypes`, keyed by `key`. */
  function Tally<T>(xs: seq<T>, key: T -> string): seq<(string, nat)>
  {
    if |xs| == 0 then [] else Bump(Tally(xs[..|xs| - 1], key), key(xs[|xs| - 1]))
  }

  /** `countDocumentTypes`: documents counted by `analysis.name`. */
  function CountDocumentTypes(docs: seq<Doc>): seq<(string, nat)> {
    Tally(docs, NameKey)
  }

  /** The sizes of the buckets of a grouping, key by key. */
  function Sizes<T>(gs: seq<Bucket<T>>): (r: seq<(string, nat)>)
    ensures |r| == |gs|
  {
    seq(|gs|, i requires 0 <= i < |gs| => (gs[i].key, |gs[i].items|))
  }

  /** Counting by a key gives the sizes of the buckets of grouping by that
      key, so each count is the number of elements of its key, the keys are
      distinct, and the counts add up to the input length. */
  lemma {:induction false} TallySizes<T>(xs: seq<T>, key: T -> string)
    ensures Tally(xs, key) == Sizes(GroupBy(xs, key))
  {
    if |xs| > 0 {
      var init := xs[..|xs| - 1];
      var x := xs[|xs| - 1];
      TallySizes(init, key);
      var gs := GroupBy(init, key);
      PlaceSizes(gs, x, key);
    }
  }

  /** One grouping step bumps the count of the element's key. */
  lemma PlaceSizes<T>(gs: seq<Bucket<T>>, x: T, key: T -> string)
    ensures Sizes(Place(gs, x, key)) == Bump(Sizes(gs), key(x))
  {
    var cs := Sizes(gs);
    var names := seq(|cs|, i requires 0 <= i < |cs| => cs[i].0);
    assert names == Keys(gs);
    var r := Place(gs, x, key);
    match KeyIndex(Keys(gs), key(x))
    case Some(i) =>
      assert Sizes(r) == cs[i := (key(x), cs[i].1 + 1)];
    case None =>
      assert Sizes(r) == cs + [(key(x), 1)];
  }

  /** `countDocumentTypes` counts every document once under its name: each
      entry is the number of documents of that name, names do not repeat,
      and the counts sum to the number of documents. */
  lemma CountDocumentTypesSpec(docs: seq<Doc>)
    ensures var cs := CountDocumentTypes(docs);
      && (forall i :: 0 <= i < |cs| ==>
            cs[i].1 == |Having(docs, NameKey, cs[i].0)| && cs[i].1 > 0)
      && (forall i, j :: 0 <= i < j < |cs| ==> cs[i].0 != cs[j].0)
      && Total(GroupBy(docs, NameKey)) == |docs|
  {
    var key := NameKey;
    TallySizes(docs, key);
    GroupByGrouped(docs, key);
    GroupByTotal(docs, key);
  }

  // ---------------------------------------------------------------------
  // buildChronology and generateDocumentTitle
  // ---------------------------------------------------------------------

  datatype Event = Event(order: nat, kind: string, confidence: nat, filename: string)

  /** The chronology entries of `docs[k..]`, numbered from `k + 1`. */
  function ChronologyFrom(docs: seq<Doc>, k: nat): (r: seq<Event>)
    requires k <= |docs|
    ensures |r| == |docs| - k
    ensures forall i :: 0 <= i < |r| ==>
      r[i].order == k + i + 1 && r[i].kind == docs[k + i].analysis.name
      && r[i].confidence == docs[k + i].analysis.confidence
    decreases |docs| - k
  {
    if k == |docs| then []
    else
      var d := docs[k];
      [Event(k + 1, d.analysis.name, d.analysis.confidence,
             FileLabel(d.src, "documento_" + NatToString(k + 1)))] + ChronologyFrom(docs, k + 1)
  }

  /** `buildChronology`: one entry per document, numbered from 1 in
      document order, naming the document's kind. */
  function BuildChronology(docs: seq<Doc>): (r: seq<Event>)
    ensures |r| == |docs|
    ensures forall i :: 0 <= i < |r| ==> r[i].order == i + 1 && r[i].kind == docs[i].analysis.name
  {
    ChronologyFrom(docs, 0)
  }

  /** `generateDocumentTitle`: the bare name for the first document of a
      section, "name (n)" with n = index + 1 for the others. */
  function GenerateDocumentTitle(name: string, index: nat): (r: string)
    ensures index == 0 <==> r == name
  {
    if index > 0 then name + " (" + NatToString(index + 1) + ")" else name
  }

  /** A numbered title gives back the name and the position: the text
      between " (" and the closing ")" reads as index + 1. */
  lemma TitleNumber(name: string, index: nat)
    requires index > 0
    ensures var r := GenerateDocumentTitle(name, index);
      && StartsWith(r, name + " (") && r[|r| - 1] == ')'
      && var digits := r[|name| + 2..|r| - 1];
         (forall i :: 0 <= i < |digits| ==> IsAsciiDigit(digits[i]))
         && ParseNat(digits) == index + 1
  {
    var r := GenerateDocumentTitle(name, index);
    assert r[|name| + 2..|r| - 1] == NatToString(index + 1);
    assert r[..|name| + 2] == name + " (";
    ParseNatToString(index + 1);
  }

  // ---------------------------------------------------------------------
  // extractProcessMetadata
  // ---------------------------------------------------------------------

  /** CNJ case number, captured whole (line 143). */
  const ProcessNumberPattern := Pattern("\\b(\\d{7}-\\d{2}\\.\\d{4}\\.\\d\\.\\d{2}\\.\\d{4})\\b", "")
  const CourtPattern := Pattern("(?:tribunal|comarca|juízo)\\s+(?:de\\s+)?([^\\n]{10,80})", "i")
  const PlaintiffPattern := Pattern("(?:autor|requerente|impetrante)[:\\s]+([^\\n]{5,80})", "i")
  const DefendantPattern := Pattern("(?:réu|requerido|impetrado)[:\\s]+([^\\n]{5,80})", "i")

  /** A field already holds a truthy value, so `if (!field)` skips it. */
  predicate Settled(v: Option<string>) {
    v.Some? && v.value != ""
  }

  /** One loop step for one field: a falsy field takes whatever this
      document yields; a truthy one is never overwritten. */
  function Keep(v: Option<string>, found: Option<string>): Option<string> {
    if Settled(v) then v else if found.Some? then found else v
  }

  /** A field after the loop over `texts`, each document yielding `grab(text)`. */
  function Field(grab: string -> Option<string>, texts: seq<string>): Option<string> {
    if |texts| == 0 then None
    else Keep(Field(grab, texts[..|texts| - 1]), grab(texts[|texts| - 1]))
  }

  /** First document wins: the first document whose value for the field is
      truthy sets it and later documents never replace it; when no document
      yields a truthy value the field stays falsy. */
  lemma {:induction false} FieldFirstWins(grab: string -> Option<string>, texts: seq<string>)
    ensures forall j :: (0 <= j < |texts| && Settled(grab(texts[j]))
      && (forall i :: 0 <= i < j ==> !Settled(grab(texts[i])))) ==> Field(grab, texts) == grab(texts[j])
    ensures (forall i :: 0 <= i < |texts| ==> !Settled(grab(texts[i]))) ==> !Settled(Field(grab, texts))
  {
    if |texts| > 0 {
      var init := texts[..|texts| - 1];
      FieldFirstWins(grab, init);
      assert forall i :: 0 <= i < |init| ==> init[i] == texts[i];
    }
  }

  datatype Metadata = Metadata(processNumber: Option<string>, court: Option<string>,
                               plaintiff: Option<string>, defendant: Option<string>,
                               extractedAt: string)

  /** `text.match(re)` followed by one of the accessors `match[0].trim()`,
      `match[1]` or `match[1].trim()`. */
  function GrabNumber(e: Engine, text: string): Option<string> {
    match FirstMatch(e, ProcessNumberPattern, text)
    case Some(m) => Some(m.group)
    case None => None
  }

  function GrabCourt(e: Engine, text: string): Option<string> {
    match FirstMatch(e, CourtPattern, text)
    case Some(m) => Some(TrimJs(MatchText(text, m)))
    case None => None
  }

  function GrabGroup(e: Engine, p: Pattern, text: string): Option<string> {
    match FirstMatch(e, p, text)
    case Some(m) => Some(TrimJs(m.group))
    case None => None
  }

  function Texts(docs: seq<Doc>): (r: seq<string>)
    ensures |r| == |docs|
    ensures forall i :: 0 <= i < |docs| ==> r[i] == DocText(docs[i].src)
  {
    Seqs.Map((d: Doc) => DocText(d.src), docs)
  }

  /** `extractProcessMetadata`; the clock reading `new Date().toISOString()`
      is the parameter `now`. */
  function ExtractProcessMetadata(e: Engine, docs: seq<Doc>, now: string): (r: Metadata)
    ensures r.extractedAt == now
    ensures |docs| == 0 ==> r.processNumber.None? && r.court.None? && r.plaintiff.None? && r.defendant.None?
  {
    var texts := Texts(docs);
    Metadata(Field(t => GrabNumber(e, t), texts), Field(t => GrabCourt(e, t), texts),
             Field(t => GrabGroup(e, PlaintiffPattern, t), texts),
             Field(t => GrabGroup(e, DefendantPattern, t), texts), now)
  }

  /** The case number is the one of the first document, in the given order,
      that contains a CNJ number, whatever later documents contain. */
  lemma ProcessNumberFirstWins(e: Engine, docs: seq<Doc>, now: string, j: nat)
    requires j < |docs|
    requires Settled(GrabNumber(e, DocText(docs[j].src)))
    requires forall i :: 0 <= i < j ==> !Settled(GrabNumber(e, DocText(docs[i].src)))
    ensures ExtractProcessMetadata(e, docs, now).processNumber == GrabNumber(e, DocText(docs[j].src))
  {
    FieldFirstWins(t => GrabNumber(e, t), Texts(docs));
  }

  // ---------------------------------------------------------------------
  // buildProcessStructure and organizeAsProcessFile
  // ---------------------------------------------------------------------

  datatype Entry = Entry(index: nat, title: string, text: string, filename: string, confidence: nat)

  datatype Section = Section(kind: string, name: string, order: int, documents: seq<Entry>)

  datatype Summary = Summary(totalDocuments: nat, documentTypes: seq<(string, nat)>,
                             chronology: seq<Event>)

  datatype ProcessFile = ProcessFile(metadata: Metadata, sections: seq<Section>, summary: Summary)

  /** The entries of a section from its `k`-th document on, numbered from `k + 1`. */
  function EntriesFrom(docs: seq<Doc>, k: nat): (r: seq<Entry>)
    requires k <= |docs|
    ensures |r| == |docs| - k
    ensures forall i :: 0 <= i < |r| ==>
      r[i].index == k + i + 1 && r[i].title == GenerateDocumentTitle(docs[k + i].analysis.name, k + i)
      && r[i].text == DocText(docs[k + i].src)
  {
    seq(|docs| - k, i requires 0 <= i < |docs| - k =>
      var d := docs[k + i];
      Entry(k + i + 1, GenerateDocumentTitle(d.analysis.name, k + i), DocText(d.src),
            FileLabel(d.src, "documento_" + NatToString(k + i + 1) + ".txt"), d.analysis.confidence))
  }

  /** One section per bucket, named and ordered after its first document. */
  function Sections(gs: seq<Bucket<Doc>>): (r: seq<Section>)
    requires forall i :: 0 <= i < |gs| ==> |gs[i].items| > 0
    ensures |r| == |gs|
    ensures forall i :: 0 <= i < |gs| ==>
      r[i].kind == gs[i].key && |r[i].documents| == |gs[i].items|
      && r[i].order == gs[i].items[0].analysis.order
  {
    seq(|gs|, i requires 0 <= i < |gs| =>
      var first := gs[i].items[0].analysis;
      Section(gs[i].key, first.name, first.order, EntriesFrom(gs[i].items, 0)))
  }

  function SectionOrder(s: Section): int {
    s.order
  }

  /** Number of documents over all sections. */
  function Filed(ss: seq<Section>): nat {
    if |ss| == 0 then 0 else |ss[0].documents| + Filed(ss[1..])
  }

  lemma {:induction false} FiledSizes(gs: seq<Bucket<Doc>>)
    requires forall i :: 0 <= i < |gs| ==> |gs[i].items| > 0
    ensures Filed(Sections(gs)) == Total(gs)
  {
    if |gs| > 0 {
      FiledSizes(gs[1..]);
      assert Sections(gs)[1..] == Sections(gs[1..]);
    }
  }

  lemma {:induction false} FiledInsert(x: Section, ss: seq<Section>)
    ensures Filed(StableSort.Insert(x, ss, SectionOrder)) == |x.documents| + Filed(ss)
  {
    if |ss| > 0 && SectionOrder(x) > SectionOrder(ss[0]) {
      FiledInsert(x, ss[1..]);
      assert StableSort.Insert(x, ss, SectionOrder)[1..] == StableSort.Insert(x, ss[1..], SectionOrder);
    } else {
      assert ([x] + ss)[1..] == ss;
    }
  }

  /** Sorting the sections neither adds nor loses documents. */
  lemma {:induction false} FiledSort(ss: seq<Section>)
    ensures Filed(StableSort.Sort(ss, SectionOrder)) == Filed(ss)
  {
    if |ss| > 0 {
      FiledSort(ss[1..]);
      FiledInsert(ss[0], StableSort.Sort(ss[1..], SectionOrder));
    }
  }

  /** `buildProcessStructure` over already sorted documents. */
  function BuildProcessStructure(e: Engine, docs: seq<Doc>, now: string): (r: ProcessFile)
    ensures r.summary.totalDocuments == |docs|
    ensures |r.summary.chronology| == |docs|
    ensures StableSort.SortedBy(r.sections, SectionOrder)
    ensures |r.sections| <= |docs|
  {
    var gs := GroupByType(docs);
    GroupByGrouped(docs, TypeKey);
    GroupByTotal(docs, TypeKey);
    TotalBound(gs);
    ProcessFile(ExtractProcessMetadata(e, docs, now),
                StableSort.Sort(Sections(gs), SectionOrder),
                Summary(|docs|, CountDocumentTypes(docs), BuildChronology(docs)))
  }

  lemma {:induction false} TotalBound(gs: seq<Bucket<Doc>>)
    requires forall i :: 0 <= i < |gs| ==> |gs[i].items| > 0
    ensures |gs| <= Total(gs)
  {
    if |gs| > 0 {
      TotalBound(gs[1..]);
    }
  }

  /** The sections file every document exactly once: their sizes add up to
      `summary.totalDocuments`, and their kinds are distinct. */
  lemma BuildProcessStructureFiles(e: Engine, docs: seq<Doc>, now: string)
    ensures var r := BuildProcessStructure(e, docs, now);
      && Filed(r.sections) == r.summary.totalDocuments
      && (forall i, j :: 0 <= i < j < |GroupByType(docs)| ==> GroupByType(docs)[i].key != GroupByType(docs)[j].key)
      && forall i, j :: 0 <= i < j < |r.sections| ==> r.sections[i].kind != r.sections[j].kind
  {
    var gs := GroupByType(docs);
    GroupByGrouped(docs, TypeKey);
    GroupByTotal(docs, TypeKey);
    FiledSizes(gs);
    FiledSort(Sections(gs));
    StableSort.DistinctPermutation(Sections(gs), StableSort.Sort(Sections(gs), SectionOrder), (s: Section) => s.kind);
  }

  /** `organizeAsProcessFile` with the analysis as a parameter: analyse each
      document's text, sort, then build the case file. */
  function OrganizeWith(analyze: string -> Analysis, e: Engine, srcs: seq<Source>, now: string): (r: ProcessFile)
    ensures r.summary.totalDocuments == |srcs|
  {
    var docs := seq(|srcs|, i requires 0 <= i < |srcs| => Doc(srcs[i], analyze(DocText(srcs[i]))));
    BuildProcessStructure(e, SortByProcessOrder(docs), now)
  }

  /** `organizeAsProcessFile`. */
  function OrganizeAsProcessFile(e: Engine, srcs: seq<Source>, now: string): ProcessFile {
    OrganizeWith(t => LegalDocumentAnalyzer.AnalyzeDocument(e, t), e, srcs, now)
  }
}
