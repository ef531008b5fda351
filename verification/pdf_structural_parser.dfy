/** Byte-level inspection of a PDF file (modules/pdf-structural-parser.js):
    the decoded prefix the scans run over, the header version of section
    7.5.2 of ISO 32000-2, signature and annotation objects found by
    pattern, the `%%EOF` markers that end the original file and each
    incremental update (sections 7.5.5 and 7.5.6 of ISO 32000-2), and the
    byte regions those objects occupy. */
module PdfStructuralParser {
  import opened Wrappers
  import opened Seqs
  import opened Strings
  import opened Regex

  newtype Byte = x: int | 0 <= x < 256

  /** How many bytes `bytesToString` decodes by default. */
  const MaxScan := 1000000

  /** How many bytes `extractPDFVersion` inspects. */
  const HeaderLength := 20

  /** The version reported when the header names none. */
  const DefaultVersion := "1.4"

  /** Characters of bytes 0x80 to 0x9F under the "latin1" label, which the
      WHATWG Encoding Standard maps to windows-1252. */
  const HighControls: seq<char> := [
    '\U{20AC}', '\U{81}', '\U{201A}', '\U{192}', '\U{201E}', '\U{2026}', '\U{2020}', '\U{2021}',
    '\U{2C6}', '\U{2030}', '\U{160}', '\U{2039}', '\U{152}', '\U{8D}', '\U{17D}', '\U{8F}',
    '\U{90}', '\U{2018}', '\U{2019}', '\U{201C}', '\U{201D}', '\U{2022}', '\U{2013}', '\U{2014}',
    '\U{2DC}', '\U{2122}', '\U{161}', '\U{203A}', '\U{153}', '\U{9D}', '\U{17E}', '\U{178}'
  ]

  /** One byte decoded as windows-1252. */
  function DecodeByte(b: Byte): (c: char)
    ensures b < 0x80 ==> c as int == b as int
    ensures c as int < 0x80 ==> c as int == b as int
  {
    if 0x80 <= b < 0xA0 then HighControls[b - 0x80] else (b as int) as char
  }

  function Decode(bytes: seq<Byte>): (r: string)
    ensures |r| == |bytes|
    ensures forall i :: 0 <= i < |bytes| ==> r[i] == DecodeByte(bytes[i])
  {
    seq(|bytes|, i requires 0 <= i < |bytes| => DecodeByte(bytes[i]))
  }

  /** `bytesToString(bytes, maxLength)`: the first `maxLength` bytes, decoded. */
  function BytesToString(bytes: seq<Byte>, maxLength: nat): (r: string)
    ensures |r| == Min(|bytes|, maxLength)
    ensures forall i :: 0 <= i < |r| ==> r[i] == DecodeByte(bytes[i])
  {
    Decode(bytes[..Min(|bytes|, maxLength)])
  }

  /** The text every scan runs over. */
  function ScanText(bytes: seq<Byte>): string {
    BytesToString(bytes, MaxScan)
  }

  /** The bytes of an ASCII string. */
  function Ascii(s: string): (r: seq<Byte>)
    requires forall i :: 0 <= i < |s| ==> s[i] as int < 0x80
    ensures |r| == |s|
  {
    seq(|s|, i requires 0 <= i < |s| => (s[i] as int) as Byte)
  }

  /** An ASCII string occurs in the decoded text exactly where its bytes
      occur in the file: decoding never produces an ASCII character from a
      non-ASCII byte. */
  lemma AsciiOccurs(bytes: seq<Byte>, s: string, i: nat)
    requires forall k :: 0 <= k < |s| ==> s[k] as int < 0x80
    requires i + |s| <= |bytes|
    ensures OccursAt(Decode(bytes), s, i) <==> bytes[i..i + |s|] == Ascii(s)
  {
    var text := Decode(bytes);
    if OccursAt(text, s, i) {
      forall k | 0 <= k < |s| ensures bytes[i + k] == Ascii(s)[k] {
        assert text[i + k] == s[k];
      }
    }
    if bytes[i..i + |s|] == Ascii(s) {
      forall k | 0 <= k < |s| ensures text[i + k] == s[k] {
        assert bytes[i + k] == Ascii(s)[k];
      }
    }
  }

  // ===== Header version =====

  /** Length of the longest prefix of decimal digits. */
  function Digits(s: string): (n: nat)
    ensures n <= |s|
    ensures forall k :: 0 <= k < n ==> IsAsciiDigit(s[k])
    ensures n < |s| ==> !IsAsciiDigit(s[n])
  {
    if |s| > 0 && IsAsciiDigit(s[0]) then 1 + Digits(s[1..]) else 0
  }

  /** `digits '.' digits`, the shape of the captured version. */
  predicate IsVersion(v: string) {
    var n := Digits(v);
    0 < n < |v| - 1 && v[n] == '.' && forall k :: n < k < |v| ==> IsAsciiDigit(v[k])
  }

  /** The capture of `/%PDF-(\d+\.\d+)/` for a match starting at `i`, if one does. */
  function VersionAt(h: string, i: nat): (r: Option<string>)
    ensures r.Some? ==> IsVersion(r.value)
  {
    if i + 5 <= |h| && h[i..i + 5] == "%PDF-" then
      var n := Digits(h[i + 5..]);
      if 0 < n && i + 5 + n < |h| && h[i + 5 + n] == '.' then
        var m := Digits(h[i + 6 + n..]);
        if m > 0 then
          var v := h[i + 5..i + 6 + n + m];
          assert forall k :: 0 <= k < n ==> v[k] == h[i + 5..][k];
          assert v[n] == '.';
          assert forall k :: n < k < |v| ==> v[k] == h[i + 6 + n..][k - n - 1];
          assert Digits(v) == n by { DigitsPrefix(v, h[i + 5..], n); }
          Some(v)
        else None
      else None
    else None
  }

  /** A run of `n` digits ending before a non-digit is read the same in any text sharing it. */
  lemma {:induction false} DigitsPrefix(v: string, w: string, n: nat)
    requires n < |v| && n <= |w| && !IsAsciiDigit(v[n])
    requires forall k :: 0 <= k < n ==> v[k] == w[k] && IsAsciiDigit(w[k])
    ensures Digits(v) == n
  {
    if n > 0 {
      DigitsPrefix(v[1..], w[1..], n - 1);
    }
  }

  /** The leftmost match at or after `i`. */
  function FindVersion(h: string, i: nat): (r: Option<string>)
    ensures r.Some? ==> IsVersion(r.value)
    decreases |h| - i
  {
    if i >= |h| then None
    else if VersionAt(h, i).Some? then VersionAt(h, i)
    else FindVersion(h, i + 1)
  }

  /** `extractPDFVersion`: the version named in the first 20 bytes, or "1.4". */
  function ExtractPdfVersion(bytes: seq<Byte>): (r: string)
    ensures r == DefaultVersion || IsVersion(r)
  {
    var v := FindVersion(BytesToString(bytes, HeaderLength), 0);
    if v.Some? then v.value else DefaultVersion
  }

  /** The search finds a version exactly when some position at or after `i` starts one. */
  lemma {:induction false} FindVersionFound(h: string, i: nat)
    ensures FindVersion(h, i).Some? <==> exists j :: i <= j < |h| && VersionAt(h, j).Some?
    decreases |h| - i
  {
    if i < |h| && VersionAt(h, i).None? {
      FindVersionFound(h, i + 1);
      if j :| i <= j < |h| && VersionAt(h, j).Some? {
        assert i + 1 <= j;
      }
    }
  }

  /** The search returns the capture of the leftmost match, and finds one
      whenever some position starts one. */
  lemma {:induction false} FindVersionLeftmost(h: string, i: nat)
    ensures FindVersion(h, i).Some? <==> exists j :: i <= j < |h| && VersionAt(h, j).Some?
    ensures FindVersion(h, i).Some? ==> exists j :: i <= j < |h| && FindVersion(h, i) == VersionAt(h, j)
                                                  && forall l :: i <= l < j ==> VersionAt(h, l).None?
    decreases |h| - i
  {
    FindVersionFound(h, i);
    if i < |h| && VersionAt(h, i).None? {
      FindVersionLeftmost(h, i + 1);
      if FindVersion(h, i).Some? {
        var j :| i + 1 <= j < |h| && FindVersion(h, i + 1) == VersionAt(h, j)
                 && forall l :: i + 1 <= l < j ==> VersionAt(h, l).None?;
        assert forall l :: i <= l < j ==> VersionAt(h, l).None?;
      }
    } else if i < |h| {
      assert FindVersion(h, i) == VersionAt(h, i);
    }
  }

  /** Only the first 20 bytes matter. */
  lemma VersionHeaderOnly(bytes: seq<Byte>, rest: seq<Byte>)
    requires |bytes| >= HeaderLength
    ensures ExtractPdfVersion(bytes + rest) == ExtractPdfVersion(bytes)
  {
    assert BytesToString(bytes + rest, HeaderLength) == BytesToString(bytes, HeaderLength);
  }

  /** A file that opens with the header line `%PDF-a.b` followed by a non-digit
      reports version `a.b`. */
  lemma VersionOfHeader(bytes: seq<Byte>, a: char, b: char)
    requires IsAsciiDigit(a) && IsAsciiDigit(b)
    requires |bytes| > 8 && bytes[..8] == Ascii("%PDF-" + [a, '.', b])
    requires !IsAsciiDigit(DecodeByte(bytes[8]))
    ensures ExtractPdfVersion(bytes) == [a, '.', b]
  {
    var h := BytesToString(bytes, HeaderLength);
    forall k | 0 <= k < 8 ensures h[k] == ("%PDF-" + [a, '.', b])[k] {
      assert bytes[k] == Ascii("%PDF-" + [a, '.', b])[k];
    }
    assert h[0..5] == "%PDF-";
    assert |h| > 8 && h[8] == DecodeByte(bytes[8]);
    assert h[5..][0] == a && h[5..][1] == '.';
    assert Digits(h[5..][1..]) == 0;
    assert Digits(h[5..]) == 1;
    assert h[7..][0] == b && h[7..][1] == h[8];
    assert Digits(h[7..][1..]) == 0;
    assert Digits(h[7..]) == 1;
    assert h[5..8] == [a, '.', b];
    assert VersionAt(h, 0) == Some([a, '.', b]);
  }

  // ===== Signatures =====

  /** `/Type /Sig` objects, PKCS#7 and CAdES sub-filters, byte ranges and hex signature contents. */
  const SignaturePatterns: seq<Pattern> := [
    Pattern("\\/Type\\s*\\/Sig", "gi"),
    Pattern("\\/SubFilter\\s*\\/adbe\\.pkcs7", "gi"),
    Pattern("\\/SubFilter\\s*\\/ETSI\\.CAdES", "gi"),
    Pattern("\\/ByteRange\\s*\\[", "gi"),
    Pattern("\\/Contents\\s*<[0-9a-fA-F]{100,}", "gi")
  ]

  /** One match: the pattern's source, where it starts and how long it is. */
  datatype Location = Location(kind: string, position: nat, length: nat)

  datatype Signatures = Signatures(found: bool, count: nat, locations: seq<Location>)

  function LocationsOf(p: Pattern, spans: seq<Span>): (r: seq<Location>)
    ensures |r| == |spans|
    ensures forall k :: 0 <= k < |r| ==> r[k] == Location(p.source, spans[k].start, spans[k].len)
  {
    seq(|spans|, k requires 0 <= k < |spans| => Location(p.source, spans[k].start, spans[k].len))
  }

  /** Every match of every pattern, pattern by pattern (the `exec` loops). */
  function Matches(e: Engine, ps: seq<Pattern>, text: string): (r: seq<Location>)
    ensures |r| == CountMatches(e, ps, text)
    ensures forall k :: 0 <= k < |r| ==> r[k].position + r[k].length <= |text|
  {
    if |ps| == 0 then []
    else
      var spans := e(ps[0], text);
      SpansInText(spans, |text|, 0);
      LocationsOf(ps[0], spans) + Matches(e, ps[1..], text)
  }

  /** Number of matches of all patterns. */
  function CountMatches(e: Engine, ps: seq<Pattern>, text: string): nat {
    if |ps| == 0 then 0 else |e(ps[0], text)| + CountMatches(e, ps[1..], text)
  }

  /** `l` is a match of one of the patterns `ps`, tagged with the pattern's source. */
  predicate IsMatchOf(e: Engine, ps: seq<Pattern>, text: string, l: Location) {
    exists j, m :: 0 <= j < |ps| && 0 <= m < |e(ps[j], text)|
                   && l == Location(ps[j].source, e(ps[j], text)[m].start, e(ps[j], text)[m].len)
  }

  predicate AllMatches(e: Engine, ps: seq<Pattern>, text: string, locs: seq<Location>) {
    forall k :: 0 <= k < |locs| ==> IsMatchOf(e, ps, text, locs[k])
  }

  /** Every location is the extent of a match of one of the patterns. */
  lemma {:induction false} MatchesSound(e: Engine, ps: seq<Pattern>, text: string)
    ensures AllMatches(e, ps, text, Matches(e, ps, text))
  {
    if |ps| > 0 {
      MatchesSound(e, ps[1..], text);
      var r := Matches(e, ps, text);
      var head := LocationsOf(ps[0], e(ps[0], text));
      var rest := Matches(e, ps[1..], text);
      assert r == head + rest;
      forall k | 0 <= k < |r| ensures IsMatchOf(e, ps, text, r[k]) {
        if k < |head| {
          assert r[k] == head[k];
          assert r[k] == Location(ps[0].source, e(ps[0], text)[k].start, e(ps[0], text)[k].len);
        } else {
          assert r[k] == rest[k - |head|];
          assert IsMatchOf(e, ps[1..], text, rest[k - |head|]);
          var j, m :| 0 <= j < |ps[1..]| && 0 <= m < |e(ps[1..][j], text)|
                      && rest[k - |head|] == Location(ps[1..][j].source, e(ps[1..][j], text)[m].start, e(ps[1..][j], text)[m].len);
          assert ps[1..][j] == ps[j + 1];
        }
      }
    }
  }

  lemma {:induction false} SpansInText(spans: seq<Span>, n: nat, pos: nat)
    requires Ordered(spans, n, pos)
    ensures forall k :: 0 <= k < |spans| ==> spans[k].start + spans[k].len <= n
  {
    if |spans| > 0 {
      SpansInText(spans[1..], n, spans[0].start + spans[0].len);
      assert forall k :: 1 <= k < |spans| ==> spans[k] == spans[1..][k - 1];
    }
  }

  function DetectSignaturesWith(e: Engine, ps: seq<Pattern>, bytes: seq<Byte>): (r: Signatures)
    ensures r.found <==> r.count > 0
    ensures r.count == |r.locations| == CountMatches(e, ps, ScanText(bytes))
    ensures forall k :: 0 <= k < |r.locations| ==> r.locations[k].position + r.locations[k].length <= Min(|bytes|, MaxScan)
  {
    var locations := Matches(e, ps, ScanText(bytes));
    Signatures(|locations| > 0, |locations|, locations)
  }

  /** `detectSignatures`. */
  function DetectSignatures(e: Engine, bytes: seq<Byte>): Signatures {
    DetectSignaturesWith(e, SignaturePatterns, bytes)
  }

  // ===== Annotations =====

  const AnnotsPattern := Pattern("\\/Annots\\s*\\[([^\\]]+)\\]", "gi")

  datatype Annotation = Annotation(position: nat, content: string)

  /** `findAnnotations`: every `/Annots [...]` array with its trimmed contents. */
  function FindAnnotationsWith(e: Engine, p: Pattern, bytes: seq<Byte>): (r: seq<Annotation>)
    ensures |r| == |e(p, ScanText(bytes))|
    ensures forall k :: 0 <= k < |r| ==>
      r[k] == Annotation(e(p, ScanText(bytes))[k].start, TrimJs(e(p, ScanText(bytes))[k].group))
    ensures forall k :: 0 <= k < |r| ==> r[k].position <= Min(|bytes|, MaxScan)
    ensures forall j, k :: 0 <= j < k < |r| ==> r[j].position <= r[k].position
  {
    var spans := e(p, ScanText(bytes));
    OrderedIndexwise(spans, |ScanText(bytes)|, 0);
    seq(|spans|, k requires 0 <= k < |spans| => Annotation(spans[k].start, TrimJs(spans[k].group)))
  }

  // ===== Incremental updates =====

  const EofMarker := "%%EOF"

  /** `text.match(/%%EOF/g).length`: markers counted left to right, each
      match resuming after the previous one. */
  function ScanMarkers(text: string, i: nat): nat
    decreases |text| - i
  {
    if i + 5 <= |text| && text[i..i + 5] == EofMarker then 1 + ScanMarkers(text, i + 5)
    else if i < |text| then ScanMarkers(text, i + 1)
    else 0
  }

  /** Positions at or after `i` where a marker starts. */
  function MarkersFrom(text: string, i: nat): nat
    decreases |text| - i
  {
    if i >= |text| then 0
    else (if OccursAt(text, EofMarker, i) then 1 else 0) + MarkersFrom(text, i + 1)
  }

  /** `countIncrementalUpdates`. */
  function CountIncrementalUpdates(bytes: seq<Byte>): nat {
    ScanMarkers(ScanText(bytes), 0)
  }

  /** Two markers never overlap: a marker starting 1 to 4 characters after
      another would need a '%' where the first has 'E', 'O' or 'F' ('%'
      itself at offset 1 would need the second's '%' at offset 2). */
  lemma NoOverlap(text: string, i: nat, k: nat)
    requires OccursAt(text, EofMarker, i) && 1 <= k <= 4
    ensures !OccursAt(text, EofMarker, i + k)
  {
    assert text[i..i + 5] == EofMarker;
    if i + k + 5 <= |text| {
      var next := text[i + k..i + k + 5];
      if k == 1 {
        assert next[1] == text[i..i + 5][2] == 'E';
      } else {
        assert next[0] == text[i..i + 5][k] != '%';
      }
    }
  }

  /** Scanning from a position counts every marker starting at or after it. */
  lemma {:induction false} ScanCountsAll(text: string, i: nat)
    ensures ScanMarkers(text, i) == MarkersFrom(text, i)
    decreases |text| - i
  {
    if i + 5 <= |text| && text[i..i + 5] == EofMarker {
      ScanCountsAll(text, i + 5);
      forall j | i + 1 <= j < i + 5 ensures !OccursAt(text, EofMarker, j) {
        NoOverlap(text, i, j - i);
      }
      SkipFree(text, i + 1, 4);
    } else if i < |text| {
      ScanCountsAll(text, i + 1);
    }
  }

  /** Skipping `n` positions where no marker starts loses nothing. */
  lemma {:induction false} SkipFree(text: string, i: nat, n: nat)
    requires forall k :: i <= k < i + n ==> !OccursAt(text, EofMarker, k)
    ensures MarkersFrom(text, i) == MarkersFrom(text, i + n)
    decreases n
  {
    if n > 0 && i < |text| {
      SkipFree(text, i + 1, n - 1);
    } else if n > 0 {
      assert MarkersFrom(text, i) == 0 && MarkersFrom(text, i + n) == 0;
    }
  }

  /** Byte positions at or after `i` where the marker's bytes start. */
  function ByteMarkersFrom(bytes: seq<Byte>, i: nat): nat
    decreases |bytes| - i
  {
    if i >= |bytes| then 0
    else (if i + 5 <= |bytes| && bytes[i..i + 5] == Ascii(EofMarker) then 1 else 0) + ByteMarkersFrom(bytes, i + 1)
  }

  lemma {:induction false} MarkersAgree(bytes: seq<Byte>, i: nat)
    ensures MarkersFrom(Decode(bytes), i) == ByteMarkersFrom(bytes, i)
    decreases |bytes| - i
  {
    if i < |bytes| {
      MarkersAgree(bytes, i + 1);
      if i + 5 <= |bytes| {
        AsciiOccurs(bytes, EofMarker, i);
      }
    }
  }

  /** The update count is the number of places where the bytes of `%%EOF`
      start within the first 1,000,000 bytes. */
  lemma IncrementalUpdatesSpec(bytes: seq<Byte>)
    ensures CountIncrementalUpdates(bytes) == ByteMarkersFrom(bytes[..Min(|bytes|, MaxScan)], 0)
  {
    var prefix := bytes[..Min(|bytes|, MaxScan)];
    assert ScanText(bytes) == Decode(prefix);
    ScanCountsAll(ScanText(bytes), 0);
    MarkersAgree(prefix, 0);
  }

  // ===== Metadata =====

  /** The info-dictionary keys and their patterns, in `Object.entries` order. */
  const MetadataPatterns: seq<(string, Pattern)> := [
    ("title", Pattern("\\/Title\\s*\\(([^)]+)\\)", "")),
    ("author", Pattern("\\/Author\\s*\\(([^)]+)\\)", "")),
    ("subject", Pattern("\\/Subject\\s*\\(([^)]+)\\)", "")),
    ("creator", Pattern("\\/Creator\\s*\\(([^)]+)\\)", "")),
    ("producer", Pattern("\\/Producer\\s*\\(([^)]+)\\)", "")),
    ("creationDate", Pattern("\\/CreationDate\\s*\\(([^)]+)\\)", "")),
    ("modDate", Pattern("\\/ModDate\\s*\\(([^)]+)\\)", ""))
  ]

  /** Whether a key's pattern matches the text. */
  function KeyFound(e: Engine, text: string): ((string, Pattern)) -> bool {
    (kp: (string, Pattern)) => Test(e, kp.1, text)
  }

  /** `extractMetadata`: the first capture of every key whose pattern matches, in key order. */
  function MetadataWith(e: Engine, keys: seq<(string, Pattern)>, text: string): (r: seq<(string, string)>)
    ensures |r| == CountIf(KeyFound(e, text), keys)
  {
    if |keys| == 0 then []
    else
      var m := FirstMatch(e, keys[0].1, text);
      (if m.Some? then [(keys[0].0, m.value.group)] else []) + MetadataWith(e, keys[1..], text)
  }

  /** `kv` pairs one of the keys whose pattern matches with the first match's capture. */
  predicate IsEntry(e: Engine, keys: seq<(string, Pattern)>, text: string, kv: (string, string)) {
    exists j :: 0 <= j < |keys| && kv.0 == keys[j].0 && Test(e, keys[j].1, text) && kv.1 == e(keys[j].1, text)[0].group
  }

  predicate HasKey(r: seq<(string, string)>, key: string) {
    exists k :: 0 <= k < |r| && r[k].0 == key
  }

  /** Every entry is a key whose pattern matches, paired with the first match's capture. */
  lemma {:induction false} MetadataEntries(e: Engine, keys: seq<(string, Pattern)>, text: string)
    ensures forall k :: 0 <= k < |MetadataWith(e, keys, text)| ==> IsEntry(e, keys, text, MetadataWith(e, keys, text)[k])
  {
    if |keys| > 0 {
      MetadataEntries(e, keys[1..], text);
      var rest := MetadataWith(e, keys[1..], text);
      var r := MetadataWith(e, keys, text);
      var d := |r| - |rest|;
      forall k | 0 <= k < |r| ensures IsEntry(e, keys, text, r[k]) {
        if k < d {
          assert r[k] == (keys[0].0, e(keys[0].1, text)[0].group);
        } else {
          assert r[k] == rest[k - d];
          assert IsEntry(e, keys[1..], text, rest[k - d]);
          var j :| 0 <= j < |keys[1..]| && rest[k - d].0 == keys[1..][j].0
                   && Test(e, keys[1..][j].1, text) && rest[k - d].1 == e(keys[1..][j].1, text)[0].group;
          assert keys[1..][j] == keys[j + 1];
        }
      }
    }
  }

  /** Every key whose pattern matches has an entry. */
  lemma {:induction false} MetadataComplete(e: Engine, keys: seq<(string, Pattern)>, text: string)
    ensures forall j :: 0 <= j < |keys| && Test(e, keys[j].1, text) ==> HasKey(MetadataWith(e, keys, text), keys[j].0)
  {
    if |keys| > 0 {
      MetadataComplete(e, keys[1..], text);
      var rest := MetadataWith(e, keys[1..], text);
      var r := MetadataWith(e, keys, text);
      var d := |r| - |rest|;
      forall j | 0 <= j < |keys| && Test(e, keys[j].1, text) ensures HasKey(r, keys[j].0) {
        if j == 0 {
          assert r[0].0 == keys[0].0;
        } else {
          assert keys[j] == keys[1..][j - 1];
          assert HasKey(rest, keys[1..][j - 1].0);
          var k :| 0 <= k < |rest| && rest[k].0 == keys[1..][j - 1].0;
          assert r[k + d] == rest[k];
        }
      }
    }
  }

  // ===== Structure =====

  /** What `analyzePDFStructure` reports; the failure structure has no
      signature locations and carries an error. */
  datatype Structure = Structure(hasSignatures: bool, signatureCount: nat, annotations: seq<Annotation>,
                                 incrementalUpdates: nat, objectCount: nat, version: string,
                                 metadata: seq<(string, string)>, signatureLocations: Option<seq<Location>>,
                                 error: Option<string>)

  /** The structure returned from the `catch` branch. */
  function FailedStructure(message: string): Structure {
    Structure(false, 0, [], 0, 0, DefaultVersion, [], None, Some(message))
  }

  /** The patterns the analysis scans with. */
  datatype Scanners = Scanners(signatures: seq<Pattern>, annots: Pattern, metadata: seq<(string, Pattern)>)

  const Standard := Scanners(SignaturePatterns, AnnotsPattern, MetadataPatterns)

  /** `analyzePDFStructure` with the given patterns: the input is None when
      it cannot be read as bytes, and the error message is then the
      exception's. */
  function AnalyzeWith(e: Engine, sc: Scanners, input: Option<seq<Byte>>, message: string): (r: Structure)
    ensures input.None? ==> r == FailedStructure(message)
    ensures input.Some? ==> && r.error.None? && r.signatureLocations.Some?
                            && r.signatureLocations.value == Matches(e, sc.signatures, ScanText(input.value))
                            && r.signatureCount == |r.signatureLocations.value|
                            && (r.hasSignatures <==> r.signatureCount > 0)
                            && r.annotations == FindAnnotationsWith(e, sc.annots, input.value)
                            && r.incrementalUpdates == CountIncrementalUpdates(input.value)
                            && r.objectCount == 0
                            && r.version == ExtractPdfVersion(input.value)
                            && r.metadata == MetadataWith(e, sc.metadata, ScanText(input.value))
  {
    if input.None? then FailedStructure(message)
    else
      var bytes := input.value;
      var sig := DetectSignaturesWith(e, sc.signatures, bytes);
      Structure(sig.found, sig.count, FindAnnotationsWith(e, sc.annots, bytes),
                CountIncrementalUpdates(bytes), 0, ExtractPdfVersion(bytes),
                MetadataWith(e, sc.metadata, ScanText(bytes)), Some(sig.locations), None)
  }

  /** `analyzePDFStructure`. */
  function AnalyzePdfStructure(e: Engine, input: Option<seq<Byte>>, message: string): Structure {
    AnalyzeWith(e, Standard, input, message)
  }

  // ===== Removal regions =====

  datatype Region = Region(kind: string, start: nat, end: nat, reason: string)

  function SignatureRegions(locs: seq<Location>): (r: seq<Region>)
    ensures |r| == |locs|
    ensures forall k :: 0 <= k < |r| ==> r[k] == Region("signature", locs[k].position,
                                                        locs[k].position + locs[k].length, "Digital signature object")
  {
    seq(|locs|, k requires 0 <= k < |locs| =>
      Region("signature", locs[k].position, locs[k].position + locs[k].length, "Digital signature object"))
  }

  function AnnotationRegions(annots: seq<Annotation>): (r: seq<Region>)
    ensures |r| == |annots|
    ensures forall k :: 0 <= k < |r| ==> r[k] == Region("annotation", annots[k].position,
                                                        annots[k].position + |annots[k].content|, "Annotation object")
  {
    seq(|annots|, k requires 0 <= k < |annots| =>
      Region("annotation", annots[k].position, annots[k].position + |annots[k].content|, "Annotation object"))
  }

  /** A signature region spanning a match of one of `ps` inside the scanned prefix of `bytes`. */
  ghost predicate SignatureRegionOf(e: Engine, ps: seq<Pattern>, bytes: seq<Byte>, reg: Region) {
    && reg.kind == "signature" && reg.end <= Min(|bytes|, MaxScan)
    && exists l :: IsMatchOf(e, ps, ScanText(bytes), l) && reg.start == l.position && reg.end == l.position + l.length
  }

  /** The signature locations a structure records, none for the failure structure. */
  function SignatureLocations(s: Structure): seq<Location> {
    if s.signatureLocations.Some? then s.signatureLocations.value else []
  }

  /** `computeRemovalRegions`: signature regions, then annotation regions. */
  function ComputeRemovalRegions(s: Structure): (r: seq<Region>)
    ensures |r| == |SignatureLocations(s)| + |s.annotations|
    ensures r[..|SignatureLocations(s)|] == SignatureRegions(SignatureLocations(s))
    ensures r[|SignatureLocations(s)|..] == AnnotationRegions(s.annotations)
  {
    SignatureRegions(SignatureLocations(s)) + AnnotationRegions(s.annotations)
  }

  /** The regions of a readable file: one per signature match, each the
      extent of a match of one of the signature patterns inside the scanned
      prefix, then one per annotation array. */
  lemma RegionsOfFile(e: Engine, sc: Scanners, bytes: seq<Byte>)
    ensures |ComputeRemovalRegions(AnalyzeWith(e, sc, Some(bytes), ""))|
            == CountMatches(e, sc.signatures, ScanText(bytes)) + |e(sc.annots, ScanText(bytes))|
    ensures forall k :: 0 <= k < CountMatches(e, sc.signatures, ScanText(bytes)) ==>
              SignatureRegionOf(e, sc.signatures, bytes, ComputeRemovalRegions(AnalyzeWith(e, sc, Some(bytes), ""))[k])
  {
    var s := AnalyzeWith(e, sc, Some(bytes), "");
    var locs := s.signatureLocations.value;
    MatchesSound(e, sc.signatures, ScanText(bytes));
    var r := ComputeRemovalRegions(s);
    forall k | 0 <= k < |locs| ensures SignatureRegionOf(e, sc.signatures, bytes, r[k]) {
      assert r[k] == r[..|locs|][k];
      assert IsMatchOf(e, sc.signatures, ScanText(bytes), locs[k]);
      assert r[k].start == locs[k].position && r[k].end == locs[k].position + locs[k].length;
    }
  }

  /** The failure structure has no regions. */
  lemma RegionsOfFailure(message: string)
    ensures ComputeRemovalRegions(FailedStructure(message)) == []
  {
  }
}
