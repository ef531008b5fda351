# A verified model of the case-file heuristics

This project models the heuristic core of a tool that turns the PDF of a
Brazilian judicial case file (a "processo") into clean, structured text.
The tool does several things:

- It locates the procedural documents inside the file, such as the initial
  petition, the defence, orders and judgments, and classifies each one.
- It strips the noise that court systems add: digital-signature stamps,
  authenticity codes, headers and footers, page numbers and OCR debris.
- It reads the PDF's structure for signatures, annotations, metadata and
  incremental updates.
- It puts positioned text items into reading order and decides whether a
  PDF is scanned.
- It scores the quality and legibility of the result, organises
  case-file folders, and keeps the bookkeeping of batch processing.

Every file is one Dafny module, and each module follows one source module:

| Dafny file | models |
|---|---|
| `document_detector.dfy` | `js/document_detector.js` |
| `intelligent_cleaner.dfy` | `js/intelligent_cleaner.js` |
| `main_enhanced.dfy` | `modules/main-enhanced.js` |
| `signature_cleaner.dfy` | `modules/advanced-signature-cleaner.js` |
| `legal_document_analyzer.dfy` | `modules/legal-document-analyzer.js` |
| `reading_order.dfy` | `modules/reading-order.js` |
| `quality_metrics.dfy` | `modules/quality-metrics.js` |
| `process_file_organizer.dfy` | `modules/process-file-organizer.js` |
| `judicial_system_detector.dfy` | `modules/judicial-system-detector.js` |
| `ocr_engine.dfy` | `modules/ocr-engine.js` |
| `batch_processor.dfy` | `modules/batch-processor.js` |
| `pdf_structural_parser.dfy` | `modules/pdf-structural-parser.js` |
| `intelligent_extractor.dfy` | `test_intelligent_extractor.py` |

Some modules are shared support rather than models of one source file:

- `wrappers.dfy` holds `Option`.
- `seqs.dfy` holds sequence helpers, such as filtering, counting, flattening and subsequences.
- `strings.dfy` holds JavaScript's `split`, `join` and `trim`, and Python's `strip`.
- `casemap.dfy` holds `toUpperCase` and `toLowerCase` over Latin-1.
- `stable_sort.dfy` holds a stable sort by key, as `Array.prototype.sort` performs it.
- `regex.dfy` holds the interface to regular expressions.

Regular expressions are not re-implemented. Every operation that uses one
takes an `Engine`. An engine is a function from a pattern (its source text
and flags, copied from the JavaScript) and a subject string to the list of
matches, where each match has a start, a length and its first capture group.
Its values are restricted to well-formed answers: the matches lie inside the
subject and are ordered and non-overlapping; a match may be empty. `test` is
"there is a match", `match(...).length` is the count, `replace(/…/g, '')`
deletes the matched spans, and `search` is the start of the first match.
Every property proved about a regex-using operation therefore holds for
every engine that answers in that shape, including JavaScript's own.

Floating-point numbers are modelled as `real`. A quotient that JavaScript
computes as `NaN` (0/0) is `None`.

## Model

| member | source | states |
|---|---|---|
| DocumentDetector.PatternScoreOf | js/document_detector.js:237-242 | the break-pattern score is at most the sum of the weights, and is positive only if some pattern matches the line with its lookahead |
| DocumentDetector.PatternScore | js/document_detector.js:104-146 | the six break patterns together add at most 47 points |
| DocumentDetector.BreakScore | js/document_detector.js:233-283 | a line's break score is at least its pattern score and at most 59; with fewer than five buffered lines only the title-line bonus (5) can be added to the pattern score, and with exactly five the short-line bonus (which needs more than five) cannot, so the extra is at most 9 |
| DocumentDetector.ClassifyReference | js/document_detector.js:285-309 | the classifier's replacement loop returns the last kind whose score beats both 3 and every earlier winner's score capped at 10, with confidence min(score/10, 1); it returns ("DOCUMENTO", 0.3) exactly when no kind does |
| DocumentDetector.ClassifyConfidenceRange | js/document_detector.js:285-309 | a classification is either the default or has confidence between 0.5 and 1 |
| DocumentDetector.StrongLaterKindWins | js/document_detector.js:297-302 | a kind scoring above 10 is never beaten by an earlier kind: the winner is that kind or a later one |
| DocumentDetector.ScanReference | js/document_detector.js:164-211 | the line loop, with its rolling 20-line buffer, yields exactly the declarative segmentation: each segment runs from a breaking line to the next line that scores above 15 while the open segment has more than 10 lines |
| DocumentDetector.ScanShape | js/document_detector.js:164-229 | with no break the whole text is one "DOCUMENTO ÚNICO" with confidence 0.5 and every line; otherwise the segments start at the first break and tile the remaining trimmed lines in order |
| DocumentDetector.ReclassifyByContext | js/document_detector.js:373-388 | re-classification needs a predecessor; it yields ("DESPACHO", 0.7) exactly when the predecessor is an initial petition, the segment is unclassified and its lower-cased text mentions "despacho" or "cite-se"; otherwise ("AR", 0.8) exactly when the predecessor is an order and the text mentions "recebimento"; otherwise no change |
| DocumentDetector.ReviseIndexwise | js/document_detector.js:355-361 | segment i is revised against the already revised segment i-1; segments with confidence at least 0.6 are untouched; revision never changes a segment's lines or start |
| DocumentDetector.PostProcessSpec | js/document_detector.js:350-370 | post-processing keeps exactly the segments with more than five lines or confidence above 0.8, in order, and numbers them 1..N; each output segment is its kept segment revised against the previous output, with the same text, start line and line count, and unchanged when its confidence is at least 0.6 |
| DocumentDetector.SingleDocumentOutcome | js/document_detector.js:216-229 | a text without a break and with at most five lines yields no document; with more lines it yields the single "DOCUMENTO ÚNICO" numbered 1 |
| IntelligentCleaner.CompleteSentenceVerbs | js/intelligent_cleaner.js:296-308 | a text is a complete sentence exactly when at least one of the six verb patterns matches it |
| IntelligentCleaner.Score | js/intelligent_cleaner.js:17-45 | with the weights of the fired signals the score lies in [-65, 87]; it is never positive without a noise signal and never negative without a content signal, and it is at least 4 (at most -4) when only noise (only content) fired |
| IntelligentCleaner.Reasons | js/intelligent_cleaner.js:170-272 | the list of reasons is empty exactly when no signal fired |
| IntelligentCleaner.Threshold | js/intelligent_cleaner.js:275-281 | the threshold is 10 exactly for "LEVE" and 5 for every other mode, because the 0 of "AGRESSIVO" is falsy |
| IntelligentCleaner.GetContext | js/intelligent_cleaner.js:313-331 | the repetition count includes the line itself and is at most the number of lines |
| IntelligentCleaner.ContextWindows | js/intelligent_cleaner.js:313-316 | for lines that came from a split on newlines, the context reads back as the up to three lines before and the up to three lines after the current one |
| IntelligentCleaner.Judge | js/intelligent_cleaner.js:275-291 | a non-blank line is content exactly when its score is below the mode's threshold, and the confidence is |score| / 50 |
| IntelligentCleaner.ModesNested | js/intelligent_cleaner.js:275-282 | a line with no noise signal is kept in every mode; whatever "MODERADO" keeps "LEVE" keeps too; "AGRESSIVO" decides as "MODERADO"; "LEVE" removes only lines scoring 10 or more |
| IntelligentCleaner.ConfidenceRange | js/intelligent_cleaner.js:285-286 | the confidence is never negative but may exceed 1, up to 87/50 |
| IntelligentCleaner.CleanFrom | js/intelligent_cleaner.js:87-117 | each line from position i on is either kept or removed |
| IntelligentCleaner.CleanFromKept | js/intelligent_cleaner.js:105-106 | the kept lines are a subsequence of the input lines |
| IntelligentCleaner.CleanFromRemoved | js/intelligent_cleaner.js:107-114 | each removed entry carries the 1-based number of a line judged noise, together with that line, and the entries come in line order |
| IntelligentCleaner.CleanText | js/intelligent_cleaner.js:81-133 | the kept and removed counts add up to the number of lines, which is at least one; the removed count is the length of the removed list; the method is "heuristic" |
| IntelligentCleaner.CleanTextKeeps | js/intelligent_cleaner.js:81-133 | the cleaned text splits back into the kept lines, which are a subsequence of the input; a blank line is never removed |
| MainEnhanced.Occurrences | modules/main-enhanced.js:209-213 | a system's occurrence score is at least the number of its signatures that match, and it is 0 exactly when none matches |
| MainEnhanced.Scores | modules/main-enhanced.js:206-215 | one score per table entry, in declaration order, each the occurrence count of that entry's signatures |
| MainEnhanced.DetectTop | modules/main-enhanced.js:217-221 | the answer is the key that comes first after a stable sort by descending score when that score is positive, and "auto" otherwise |
| MainEnhanced.DetectOutcome | modules/main-enhanced.js:205-222 | with no occurrence anywhere the answer is "auto"; otherwise it is the key of an entry with a positive, highest score that no earlier entry ties |
| MainEnhanced.SystemKeys | modules/main-enhanced.js:75-131 | the six system keys are distinct and none is "auto" |
| MainEnhanced.DetectSystemSpec | modules/main-enhanced.js:205-222 | over the real table, "auto" is returned exactly when no signature of any system matches; otherwise the key of a best-scoring system, ties going to the order eproc, esaj, pje, projudi, stf, stj |
| MainEnhanced.Collapse | modules/main-enhanced.js:171 | replacing runs of a whitespace class by one space never lengthens the text, and a leading run becomes one space |
| MainEnhanced.UnbreakSpaces | modules/main-enhanced.js:171 | replacing no-break spaces keeps the length |
| MainEnhanced.CollapseSpaced | modules/main-enhanced.js:171 | after collapsing, no two characters of the class are adjacent |
| MainEnhanced.CollapseFixed | modules/main-enhanced.js:171 | a text that is already single-spaced is left unchanged |
| MainEnhanced.TrimLeftWords | modules/main-enhanced.js:171 | trimming leading whitespace keeps every non-space character in order |
| MainEnhanced.TrimRightWords | modules/main-enhanced.js:171 | trimming trailing whitespace keeps every non-space character in order |
| MainEnhanced.CollapseWords | modules/main-enhanced.js:171 | collapsing whitespace runs keeps every non-space character in order |
| MainEnhanced.UnbreakWords | modules/main-enhanced.js:171 | replacing no-break spaces keeps every non-space character in order |
| MainEnhanced.UnbreakFixed | modules/main-enhanced.js:171 | a text without no-break spaces is left unchanged |
| MainEnhanced.SingleSpacedSlice | modules/main-enhanced.js:171 | a slice of a single-spaced text is single-spaced |
| MainEnhanced.NormSpec | modules/main-enhanced.js:170-172 | `norm` yields no whitespace other than single spaces, none at either end, and keeps every other character in order |
| MainEnhanced.NormFixed | modules/main-enhanced.js:170-172 | a text already in normal form is its own normal form |
| MainEnhanced.NormIdempotent | modules/main-enhanced.js:170-172 | normalising twice is normalising once |
| MainEnhanced.ModeTuning | modules/main-enhanced.js:246-261 | "leve" gives bands 0.05/0.08 with minRepeat 3 and minSignals 3; "moderado" gives 0.06/0.12, 2, 2; any other mode gives 0.08/0.18, 2, 1; the bands never cover the page |
| MainEnhanced.ModeMonotone | modules/main-enhanced.js:246-261 | a stronger mode widens both bands and asks for no more repetitions and no more signals |
| MainEnhanced.Terms | modules/main-enhanced.js:263 | the whitelist terms are at most as many as the items and none is empty |
| MainEnhanced.LookupSpec | modules/main-enhanced.js:267-269 | looking a key up yields the signatures of the entry with that key, and nothing when no entry has it |
| MainEnhanced.SystemSignaturesSpec | modules/main-enhanced.js:267-269 | system-specific patterns are used exactly when the system is not "auto" and names an entry, and then they are that entry's |
| MainEnhanced.Removals | modules/main-enhanced.js:278-333 | the removed lines of a page and its kept lines add up to its lines; each removal carries the reason the line was judged by |
| MainEnhanced.FilterPages | modules/main-enhanced.js:277-334 | one page out per page in; each page keeps exactly its lines without a verdict; kept and removed lines add up to all lines |
| MainEnhanced.CleanWith | modules/main-enhanced.js:226-345 | the page count is unchanged, `stats` reports the page count, the removed count and zero ranges, and every removed line carries its own verdict |
| MainEnhanced.FilterPagesPage | modules/main-enhanced.js:277-334 | each page's kept lines are a subsequence of its lines, and a line is kept exactly when it has no verdict |
| MainEnhanced.CleanPage | modules/main-enhanced.js:277-334 | each page keeps, in order, exactly its lines that no rule removes |
| MainEnhanced.CleanKeepsWhitelisted | modules/main-enhanced.js:281-282 | a line containing a whitelist term, in any case, is always kept |
| MainEnhanced.CleanNothing | modules/main-enhanced.js:285-330 | with every removal option off the pages come back whole and nothing is removed |
| MainEnhanced.LeadingRun | modules/main-enhanced.js:368-370 | the run length is the longest prefix of class characters |
| MainEnhanced.DottedRunSpec | modules/main-enhanced.js:368-370 | a numbered or roman opener is a non-empty prefix of its class followed by a dot |
| MainEnhanced.GroupFromContent | modules/main-enhanced.js:354-384 | the per-page loop emits every non-blank line exactly once, in order |
| MainEnhanced.GroupFromGrouped | modules/main-enhanced.js:358-384 | every paragraph is non-empty, holds only non-blank lines, and only its first line may be an opener |
| MainEnhanced.ParagraphsAppend | modules/main-enhanced.js:351-385 | no paragraph crosses a page boundary: the paragraphs of two runs of pages are those of each run in turn |
| MainEnhanced.ParagraphsSpec | modules/main-enhanced.js:348-388 | over all pages, the paragraphs hold the non-blank lines exactly once and in order, and an opener only ever heads a paragraph |
| MainEnhanced.JoinPagesSpec | modules/main-enhanced.js:348-388 | every paragraph text is non-empty, and the paragraphs' line texts are the trimmed texts of the non-blank lines in order |
| LegalDocumentAnalyzer.MatchesAll | modules/legal-document-analyzer.js:252-258 | the collected matched strings are as many as the occurrences of all positive patterns |
| LegalDocumentAnalyzer.CalculateTypeScore | modules/legal-document-analyzer.js:248-272 | the score is the positive occurrence count minus twice the exclusion occurrence count, floored at 0: never above the match count, 0 exactly when the exclusions outweigh the matches, and the match count when no exclusion occurs |
| LegalDocumentAnalyzer.NormalizeConfidenceShape | modules/legal-document-analyzer.js:277-288 | the confidence is a percentage, 0 exactly for score 0, at least 50 for score 1 and for scores of 3 or more, dips at score 2 (38) below scores 1 and 3 (50), rises monotonically from 2 on, and reaches 100 exactly from score 14 on |
| LegalDocumentAnalyzer.ScoreAll | modules/legal-document-analyzer.js:211-214 | one score per type, in declaration order |
| LegalDocumentAnalyzer.ScoreTable | modules/legal-document-analyzer.js:230 | one `allScores` entry per type |
| LegalDocumentAnalyzer.RecordTable | modules/legal-document-analyzer.js:241 | the unidentified document's `allScores`: one entry per type, in declaration order, holding that type's whole score record |
| LegalDocumentAnalyzer.AnalyzeScoresBest | modules/legal-document-analyzer.js:216-243 | the result is "unknown" (order 999, confidence 0, no matches) exactly when every score is 0, and then `allScores` holds every type's full record; otherwise it is the first-declared type among those with the highest score, and `allScores` holds one score per type |
| LegalDocumentAnalyzer.KeysKnown | modules/legal-document-analyzer.js:19-203 | no declared type is keyed "unknown" |
| LegalDocumentAnalyzer.AnalyzeBest | modules/legal-document-analyzer.js:208-243 | `analyzeDocument` over scored types returns "unknown" exactly when all scores are 0, and then reports for each type score 0 with the matches its patterns found; otherwise the earliest type with the maximal score, its order and its normalised confidence |
| LegalDocumentAnalyzer.FirstMatching | modules/legal-document-analyzer.js:307-316 | the first pattern at or after k that matches, and none before it does; None when none matches |
| LegalDocumentAnalyzer.DetectDocumentStart | modules/legal-document-analyzer.js:293-319 | only the first windowSize characters are inspected; found exactly when a start pattern matches there; then the first such pattern in list order and its match position; otherwise position -1 |
| LegalDocumentAnalyzer.FooterStart | modules/legal-document-analyzer.js:326 | the footer starts inside the text |
| LegalDocumentAnalyzer.DetectDocumentEndAsWritten | modules/legal-document-analyzer.js:324-348 | as written: found exactly when an end pattern matches in the footer (the last windowSize characters, or the whole text when it is shorter); then the first matching pattern, at position length − windowSize plus the match's start in the footer; otherwise the text length |
| LegalDocumentAnalyzer.DetectDocumentEnd | modules/legal-document-analyzer.js:324-348 | found exactly when an end pattern matches in the last windowSize characters; then the first such pattern and a position measured from where the footer really starts, so it lies inside the text; otherwise the text length |
| LegalDocumentAnalyzer.DetectDocumentEndAgrees | modules/legal-document-analyzer.js:326-341 | for texts at least windowSize long the written and corrected end detection agree |
| LegalDocumentAnalyzer.DetectDocumentEndNegative | modules/legal-document-analyzer.js:341 | on "abc" with the default window, the written code reports position -497 where the footer match is at 0 |
| LegalDocumentAnalyzer.Candidates | modules/legal-document-analyzer.js:366-376 | every separator candidate is a position within the text |
| LegalDocumentAnalyzer.SortedCandidates | modules/legal-document-analyzer.js:379 | the candidates sorted ascending are a permutation of the found ones |
| LegalDocumentAnalyzer.DedupAsWritten | modules/legal-document-analyzer.js:382-389 | the written deduplication keeps only candidates more than 50 characters after the last kept one |
| LegalDocumentAnalyzer.DedupAsWrittenSkipsStart | modules/legal-document-analyzer.js:383-385 | because `lastPos` starts at -1, no separator before position 50 is ever kept |
| LegalDocumentAnalyzer.DedupFirstSeparatorLost | modules/legal-document-analyzer.js:383-385 | separators at 0 and 120 deduplicate to [120] as written, and to [0, 120] when the first candidate is always kept |
| LegalDocumentAnalyzer.Dedup | modules/legal-document-analyzer.js:382-389 | the kept separators come from the candidates, and the first candidate is always kept |
| LegalDocumentAnalyzer.DedupSpaced | modules/legal-document-analyzer.js:385 | consecutive kept separators lie more than 50 characters apart |
| LegalDocumentAnalyzer.DedupCovers | modules/legal-document-analyzer.js:382-389 | every dropped candidate lies within 50 characters after a kept one |
| LegalDocumentAnalyzer.Early | modules/legal-document-analyzer.js:383-385 | the number of leading sorted candidates before position 50: all of them lie before 50 and the next one does not |
| LegalDocumentAnalyzer.DedupAsWrittenFrom | modules/legal-document-analyzer.js:382-389 | once a position has been kept, the loop as written keeps the same separators as the corrected one |
| LegalDocumentAnalyzer.DedupAsWrittenSkips | modules/legal-document-analyzer.js:382-389 | the loop as written is the corrected deduplication applied to the candidates from the first one at or after position 50 |
| LegalDocumentAnalyzer.SeparatorsShape | modules/legal-document-analyzer.js:366-389 | the separators kept as written are spaced and inside the text; there are none exactly when every candidate lies before position 50; otherwise the first lies at or after 50 and every candidate before it lies before 50 |
| LegalDocumentAnalyzer.SeparateWith | modules/legal-document-analyzer.js:391-403 | with no separator kept by the deduplication as written, the result is one document spanning the whole text |
| LegalDocumentAnalyzer.SeparateCorrectedWith | modules/legal-document-analyzer.js:391-403 | with no separator kept by the corrected deduplication, the result is one document spanning the whole text |
| LegalDocumentAnalyzer.SeparateFromShape | modules/legal-document-analyzer.js:391-427 | cutting at spaced separators inside the text: none gives one document spanning the text; otherwise the documents are well cut, in order, and none starts before the first separator |
| LegalDocumentAnalyzer.SpacedOrder | modules/legal-document-analyzer.js:385 | spaced separators are strictly increasing |
| LegalDocumentAnalyzer.PiecesGood | modules/legal-document-analyzer.js:406-427 | every emitted document runs from a separator to the next one (or the text end), holds its trimmed text, is longer than 100 characters, and carries the analysis of that text |
| LegalDocumentAnalyzer.PiecesInOrder | modules/legal-document-analyzer.js:406-427 | the emitted documents are ordered and do not overlap |
| LegalDocumentAnalyzer.SeparateShape | modules/legal-document-analyzer.js:353-430 | as written, with any trim that never lengthens: the separators are spaced and inside the text; with any separator, the documents are well cut, in order, and none starts before the first separator |
| LegalDocumentAnalyzer.SeparateJsShape | modules/legal-document-analyzer.js:353-430 | as written, with JavaScript's trim: when every candidate lies before position 50, one document [0, length) holds the whole text; otherwise the first kept separator lies at or after 50, the documents are well cut and ordered, and none starts before that separator, so the text before it belongs to no document |
| LegalDocumentAnalyzer.SeparateCorrectedShape | modules/legal-document-analyzer.js:353-430 | with the corrected deduplication: there is no separator only when there is no candidate, and then one document spans the text; otherwise the first candidate opens the first range, the documents are well cut, and every dropped candidate lies within 50 characters after a kept separator |
| JudicialSystemDetector.Base | modules/judicial-system-detector.js:165-171 | the base confidence 40 + 60·matches/total is at least 40, and at most 100 when the matches are at most the total |
| JudicialSystemDetector.Ranked | modules/judicial-system-detector.js:174-176 | the priority bonus never lowers a confidence below min(x, 100) and never raises one past 100 |
| JudicialSystemDetector.Extra | modules/judicial-system-detector.js:179-181 | the bonus for matches above the minimum never lowers a confidence below min(x, 100) and never raises one past 100 |
| JudicialSystemDetector.Confidence | modules/judicial-system-detector.js:165-187 | a system below its minimum scores 0; one at or above it scores, after rounding, at least 40 and at most 100 |
| JudicialSystemDetector.RoundMonotone | modules/judicial-system-detector.js:187 | `Math.round` preserves order |
| JudicialSystemDetector.BaseMonotone | modules/judicial-system-detector.js:171 | more matches never lower the base confidence |
| JudicialSystemDetector.ExtraMonotone | modules/judicial-system-detector.js:179-181 | more matches on a higher confidence never lower the bonused confidence |
| JudicialSystemDetector.ConfidenceMonotone | modules/judicial-system-detector.js:168-187 | for a fixed system the confidence never decreases as the number of matching signatures grows |
| JudicialSystemDetector.ScoreSystem | modules/judicial-system-detector.js:164-191 | the match count is the number of signature patterns that match (never more than the signatures), and the confidence is at most 100 |
| JudicialSystemDetector.ScoreSystems | modules/judicial-system-detector.js:163-192 | one result per system, in declaration order |
| JudicialSystemDetector.DetectWith | modules/judicial-system-detector.js:151-158 | a text shorter than 100 characters is UNKNOWN with confidence 0 before any pattern is tried; every confidence is at most 100 |
| JudicialSystemDetector.SystemsValid | modules/judicial-system-detector.js:20-143 | every system of the table has signatures and a positive minimum number of matches, no two systems share a code, and no code clashes with the fallback names |
| JudicialSystemDetector.DetectOutcome | modules/judicial-system-detector.js:194-237 | the fallback is taken exactly when no system reaches its minimum: GENERIC_JUDICIAL at 50 with two or more ICP-Brasil matches, UNKNOWN at 0 otherwise; else the winner is the first-declared system with the highest confidence, which lies in [40, 100] |
| QualityMetrics.Share | modules/quality-metrics.js:150-153 | the share of passed checks lies in [0, 1], is 1 exactly when every check passes and 0 exactly when none does |
| QualityMetrics.CountTrue | modules/quality-metrics.js:150 | the passed checks are at most all of them, all of them exactly when every check passes, none exactly when every check fails |
| QualityMetrics.MlConfidence | modules/quality-metrics.js:65-95 | in OCR mode a supplied Tesseract confidence is returned divided by 100 without a clamp, and otherwise the text estimate; in structural mode the confidence lies in [0, 1] |
| QualityMetrics.MlConfidenceStructural | modules/quality-metrics.js:80-94 | in structural mode all three expected elements (text, pages, a chosen system) give 1; an analysed PDF structure gives at least 0.1; without it the result is 1 exactly when all three are present |
| QualityMetrics.Clamp01 | modules/quality-metrics.js:118 | the clamp lies in [0, 1] and leaves values already there unchanged |
| QualityMetrics.OcrScore | modules/quality-metrics.js:101-118 | the OCR quality score of a non-empty text lies in [0, 1] |
| QualityMetrics.EstimateOcrQuality | modules/quality-metrics.js:100-119 | an estimate exists exactly for non-empty text (empty text divides by zero) and then lies in [0, 1] |
| QualityMetrics.OcrScoreClean | modules/quality-metrics.js:101-118 | a text with no invalid characters and at most 5% special characters scores 1, and one more legal word never lowers the score |
| QualityMetrics.StructuralChecks | modules/quality-metrics.js:127-148 | there are exactly seven structural checks |
| QualityMetrics.StructuralCompleteness | modules/quality-metrics.js:124-154 | completeness lies in [0, 1] and is 1 exactly when all seven checks pass |
| QualityMetrics.NoiseRatio | modules/quality-metrics.js:209-231 | empty text has noise ratio 1; otherwise the ratio is non-negative and at most the number of noise patterns, since matches of different patterns may overlap |
| QualityMetrics.CoveredByAllBound | modules/quality-metrics.js:224-228 | the matched characters of all patterns total at most patterns × length |
| QualityMetrics.DetectParagraphs | modules/quality-metrics.js:236-239 | every paragraph is a piece of the blank-line split whose trimmed text is longer than 50 characters |
| QualityMetrics.LexicalDensity | modules/quality-metrics.js:244-254 | the density is 0 exactly when there is no word longer than two characters, and lies in [0, 1] |
| QualityMetrics.RepeatedLines | modules/quality-metrics.js:263-275 | the repeated lines are at most all lines |
| QualityMetrics.RepeatedLinesShape | modules/quality-metrics.js:263-275 | nothing is counted unless some key longer than 20 characters occurs more than three times, and then all its occurrences count, so the count is 0 or at least 4 |
| QualityMetrics.LineKeys | modules/quality-metrics.js:263-264 | one key per line |
| QualityMetrics.ExcessiveRepetition | modules/quality-metrics.js:259-278 | the repetition ratio lies in [0, 1] |
| QualityMetrics.QualityChecks | modules/quality-metrics.js:180-198 | there are exactly six quality checks |
| QualityMetrics.QualityShare | modules/quality-metrics.js:177-204 | the quality share lies in [0, 1] and is 1 exactly when all six checks pass |
| QualityMetrics.GetRecommendation | modules/quality-metrics.js:283-307 | AUTO_ACCEPT exactly from 0.90, AUTOMATED_VALIDATION exactly in [0.70, 0.90), HUMAN_REVIEW below 0.70 or for an undefined score |
| QualityMetrics.RecommendationMonotone | modules/quality-metrics.js:283-307 | a higher score never gets a weaker recommendation |
| QualityMetrics.Combine | modules/quality-metrics.js:40-46 | the components are reported as given, the score exists exactly when the model confidence does, and the recommendation is that of the score |
| QualityMetrics.CombineRange | modules/quality-metrics.js:40-44 | with components in [0, 1] the score 0.4·ml + 0.3·structural + 0.3·quality lies in [0, 1] and is 1 exactly when all three are 1 |
| QualityMetrics.ComputeConfidenceScore | modules/quality-metrics.js:35-59 | the score combines the model confidence, structural completeness and quality share; the recommendation uses the unrounded score; in structural mode the score lies in [0, 1] |
| QualityMetrics.NextRow | modules/quality-metrics.js:371-382 | one row of the dynamic program computed from the previous one holds the edit distances of the prefixes |
| QualityMetrics.LevenshteinDistance | modules/quality-metrics.js:363-386 | the table-filling loop returns the recursive edit distance |
| QualityMetrics.DistSelf | modules/quality-metrics.js:371-374 | a prefix is at distance 0 from itself |
| QualityMetrics.DistSymmetric | modules/quality-metrics.js:371-382 | the edit distance is symmetric |
| QualityMetrics.DistBounds | modules/quality-metrics.js:367-382 | the edit distance is at least the difference and at most the larger of the two lengths |
| QualityMetrics.LevenshteinProperties | modules/quality-metrics.js:363-386 | d(s, s) = 0, d(s, "") = the length of s, d is symmetric, and the length difference ≤ d ≤ the longer length |
| QualityMetrics.DistZero | modules/quality-metrics.js:371-382 | only equal prefixes are at distance zero |
| QualityMetrics.EstimateCer | modules/quality-metrics.js:313-330 | no rate without a ground truth; otherwise the rate times the ground truth's length is the edit distance, which is reported with that length |
| QualityMetrics.CerZero | modules/quality-metrics.js:313-330 | the rate is zero exactly for a perfect prediction, and at most the longer length per ground-truth character |
| ProcessFileOrganizer.DocText | modules/process-file-organizer.js:25 | a document's text is `text` when non-empty, else `cleanText`, else ""; it is empty only when both are |
| ProcessFileOrganizer.FileLabel | modules/process-file-organizer.js:97 | the label is `filename` when present, else the file's name, else the numbered fallback |
| ProcessFileOrganizer.SortByProcessOrder | modules/process-file-organizer.js:46-68 | sorting keeps the number of documents |
| ProcessFileOrganizer.SortByProcessOrderSpec | modules/process-file-organizer.js:46-68 | the result is a permutation of the input, ascending by process order, and documents with equal order keep their input order |
| ProcessFileOrganizer.KeyIndex | modules/process-file-organizer.js:120 | the position of a key among the group keys, None exactly when no group has it |
| ProcessFileOrganizer.Having | modules/process-file-organizer.js:118-124 | the elements with a given key are at most all elements |
| ProcessFileOrganizer.HavingSnoc | modules/process-file-organizer.js:123 | appending an element extends the group of its key and no other |
| ProcessFileOrganizer.PlaceKeys | modules/process-file-organizer.js:120-123 | placing an element keeps the keys when its key has a group, and appends its key otherwise |
| ProcessFileOrganizer.PlaceExact | modules/process-file-organizer.js:118-124 | after placing an element each group still holds exactly the elements of its key, in order |
| ProcessFileOrganizer.GroupByGrouped | modules/process-file-organizer.js:115-127 | every document lands in exactly one group keyed by its type: each group holds exactly the documents of its key in input order, no group is empty, no key repeats, and every document's key has a group |
| ProcessFileOrganizer.GroupByTotal | modules/process-file-organizer.js:115-127 | the group sizes add up to the number of documents |
| ProcessFileOrganizer.TallySizes | modules/process-file-organizer.js:184-193 | counting by name gives the sizes of the groups by name, in first-seen order |
| ProcessFileOrganizer.CountDocumentTypesSpec | modules/process-file-organizer.js:184-193 | every count is the positive number of documents with that name, no name is counted twice, and the counts add up to the number of documents |
| ProcessFileOrganizer.ChronologyFrom | modules/process-file-organizer.js:198-205 | one event per document from k on, numbered from k+1, with the document's name and confidence |
| ProcessFileOrganizer.BuildChronology | modules/process-file-organizer.js:198-205 | one event per document, in order, with order = position + 1 and the document's type name |
| ProcessFileOrganizer.GenerateDocumentTitle | modules/process-file-organizer.js:210-219 | the title is the bare name exactly for index 0 |
| ProcessFileOrganizer.TitleNumber | modules/process-file-organizer.js:214-216 | for a later index the title is the name, a space, and index + 1 in decimal digits between parentheses |
| ProcessFileOrganizer.FieldFirstWins | modules/process-file-organizer.js:138-171 | for each field the first document that yields a value sets it and later documents never overwrite it; with none it stays unset |
| ProcessFileOrganizer.ExtractProcessMetadata | modules/process-file-organizer.js:132-179 | the extraction time is the given clock value, and no documents leave every field unset |
| ProcessFileOrganizer.ProcessNumberFirstWins | modules/process-file-organizer.js:141-147 | the process number comes from the first document whose text holds a CNJ number |
| ProcessFileOrganizer.EntriesFrom | modules/process-file-organizer.js:93-100 | one entry per document of a section, numbered from 1, titled by its position, with the document's text |
| ProcessFileOrganizer.Sections | modules/process-file-organizer.js:88-104 | one section per group, with the group's key, its documents, and the order of its first document |
| ProcessFileOrganizer.FiledSort | modules/process-file-organizer.js:107 | sorting the sections keeps the number of filed documents |
| ProcessFileOrganizer.BuildProcessStructure | modules/process-file-organizer.js:73-110 | the summary counts every document and has one chronology event each; the sections are sorted by order and are at most as many as the documents |
| ProcessFileOrganizer.BuildProcessStructureFiles | modules/process-file-organizer.js:73-110 | the section sizes add up to `summary.totalDocuments`, and no two sections share a type |
| ProcessFileOrganizer.OrganizeWith | modules/process-file-organizer.js:20-41 | every given document is counted in the organised file |
| SignatureCleaner.Lookup | modules/advanced-signature-cleaner.js:57 | a system's rules are found exactly when some table entry has that key, and are that entry's rules |
| SignatureCleaner.RemoveChanges | modules/advanced-signature-cleaner.js:105 | deleting matches either leaves the text unchanged or strictly shortens it |
| SignatureCleaner.ApplyPatterns | modules/advanced-signature-cleaner.js:99-117 | every recorded pattern carries the category, at most one per rule; each recorded rule removed at least one character; nothing is recorded exactly when the text is unchanged |
| SignatureCleaner.Escape | modules/advanced-signature-cleaner.js:132 | escaping never shortens an item |
| SignatureCleaner.EscapeLiteral | modules/advanced-signature-cleaner.js:132 | the escaped pattern reads back as the literal item |
| SignatureCleaner.ApplyBlacklist | modules/advanced-signature-cleaner.js:123-151 | recorded entries are "custom-blacklist", at most one per item, each for a change; nothing is recorded exactly when the text is unchanged; a list of only blank items changes nothing |
| SignatureCleaner.NormalizeText | modules/advanced-signature-cleaner.js:157-168 | the normalised text has no whitespace at either end |
| SignatureCleaner.NormalizeShrinks | modules/advanced-signature-cleaner.js:157-168 | normalisation never lengthens the text, given that each run replaced is at least as long as its replacement |
| SignatureCleaner.CleanSteps | modules/advanced-signature-cleaner.js:56-81 | the system step applies only when the system key exists, and the blacklist step only when the list is non-empty; each step records its own category |
| SignatureCleaner.CleanWith | modules/advanced-signature-cleaner.js:44-93 | empty text comes back unchanged and unwrapped; otherwise the stats name the system and report the original and final lengths |
| SignatureCleaner.CleanStepOrder | modules/advanced-signature-cleaner.js:56-84 | the recorded patterns come in step order: system-specific, then universal, then custom blacklist, with no system entries for an unknown key and no blacklist entries for an empty list |
| SignatureCleaner.CleanShrinks | modules/advanced-signature-cleaner.js:86-87 | the final length never exceeds the original, so the reduction percentage is never negative |
| SignatureCleaner.SetCustomBlacklist | modules/advanced-signature-cleaner.js:531-533 | a list is taken as given and a single item is wrapped in a list |
| SignatureCleaner.AddToBlacklist | modules/advanced-signature-cleaner.js:539-543 | a truthy item ends up in the list; nothing else is added, and at most one entry is |
| SignatureCleaner.IndexOf | modules/advanced-signature-cleaner.js:550 | the index is -1 exactly when the item is absent, and otherwise its first position |
| SignatureCleaner.RemoveFromBlacklist | modules/advanced-signature-cleaner.js:549-554 | an absent item changes nothing; otherwise exactly one occurrence is removed |
| SignatureCleaner.BlacklistRoundTrip | modules/advanced-signature-cleaner.js:539-554 | adding keeps a duplicate-free list duplicate-free and is idempotent, and removing a freshly added item restores the list |
| SignatureCleaner.GetStatistics | modules/advanced-signature-cleaner.js:559-567 | one count per system table in table order, then "universal" and "customBlacklist" |
| ReadingOrder.CompareAntisymmetric | modules/reading-order.js:61-71 | the spatial comparator is antisymmetric: same line (|Δy| < 5) orders by x ascending, otherwise by y descending |
| ReadingOrder.CompareCycle | modules/reading-order.js:61-71 | the comparator is not transitive: three points each compare before the next, in a cycle |
| ReadingOrder.InsertBy | modules/reading-order.js:61-71 | inserting under the comparator adds exactly the new item |
| ReadingOrder.SpatialSort | modules/reading-order.js:60-72 | the spatial sort is a permutation of its input |
| ReadingOrder.InsertByOrdered | modules/reading-order.js:61-71 | inserting into a locally ordered sequence keeps it locally ordered |
| ReadingOrder.SpatialSortOrdered | modules/reading-order.js:60-72 | every two neighbours of the sorted sequence are in comparator order; no stronger total-order claim holds, because the comparator is not transitive |
| ReadingOrder.HistogramCounts | modules/reading-order.js:86-91 | the histogram counts, at each x, the items whose floored x is that column |
| ReadingOrder.ScanGaps | modules/reading-order.js:113-128 | the gap scan emits ordered, separated gaps that end before the page width |
| ReadingOrder.FindGaps | modules/reading-order.js:108-131 | the gaps come out strictly ordered and disjoint |
| ReadingOrder.ScanGapsSound | modules/reading-order.js:113-128 | every emitted gap is a maximal zero-count run [start, end) that ends before the width and is wider than a tenth of the page |
| ReadingOrder.ScanGapsComplete | modules/reading-order.js:113-128 | every such run is emitted; a zero run that reaches the width never is |
| ReadingOrder.FindGapsSpec | modules/reading-order.js:108-131 | a gap is emitted exactly when it is a maximal zero-count run ending inside the page and wider than the threshold |
| ReadingOrder.BoundsFrom | modules/reading-order.js:140-147 | one column bound per gap plus one up to the page width |
| ReadingOrder.ColumnsFrom | modules/reading-order.js:150-159 | empty columns are dropped, so every column holds an item |
| ReadingOrder.BoundsChained | modules/reading-order.js:140-147 | bounds built from ordered gaps follow one another without overlap |
| ReadingOrder.ColumnsDisjoint | modules/reading-order.js:150-159 | with chained bounds no item lands in two columns |
| ReadingOrder.ColumnsFromMembers | modules/reading-order.js:150-159 | an item is in some column exactly when it lies within some bound |
| ReadingOrder.BoundsCover | modules/reading-order.js:140-147 | an item inside the page and outside every gap falls within some bound |
| ReadingOrder.GroupKeepsPageItems | modules/reading-order.js:136-162 | when there are gaps, every item inside the page lands in a column, the columns hold only input items, and the columns are disjoint |
| ReadingOrder.SortByColumns | modules/reading-order.js:167-177 | sorting column by column is a permutation of the columns' items |
| ReadingOrder.OverlapShape | modules/reading-order.js:222-249 | the overlap test is symmetric, and it can hold only when the two heights sum to at most 0, because the bottom is y - height |
| ReadingOrder.Prefer | modules/reading-order.js:263-276 | each reduction step keeps one of its two candidates |
| ReadingOrder.SelectPrimary | modules/reading-order.js:254-277 | the primary element of a non-empty list is one of its elements |
| ReadingOrder.ReduceFromPrefers | modules/reading-order.js:263-276 | the reduction ends on a text element when one exists, and then on one of the largest area among the text elements |
| ReadingOrder.SelectPrimarySpec | modules/reading-order.js:254-277 | the primary element has text exactly when some element has, and its area is then the largest among those with text |
| ReadingOrder.OverlappingFrom | modules/reading-order.js:193-199 | the collected indices are unprocessed later items that overlap the current one |
| ReadingOrder.ResolveFrom | modules/reading-order.js:182-217 | the resolution yields at most the remaining items, all from the input |
| ReadingOrder.ResolveOverlapsIdentity | modules/reading-order.js:182-217 | with non-negative heights, or no overlaps at all, resolving overlaps returns its input unchanged |
| ReadingOrder.OutlineFromItems | modules/reading-order.js:282-324 | building the section outline keeps every item once, in order |
| ReadingOrder.PreserveHierarchyIdentity | modules/reading-order.js:282-324 | `preserveHierarchy` returns exactly its input in the same order |
| ReadingOrder.MarkAll | modules/reading-order.js:359-361 | marking rotated items keeps their number |
| ReadingOrder.PartitionMarked | modules/reading-order.js:352-372 | the loop puts the unmarked items first and the marked ones after, each group in input order |
| ReadingOrder.HandleRotatedText | modules/reading-order.js:352-372 | the rotated-text pass is a stable partition, upright items first and rotated (flagged) ones after, keeping the length |
| ReadingOrder.PartitionCounts | modules/reading-order.js:352-372 | upright and rotated items add up to all items |
| ReadingOrder.Paragraphs | modules/reading-order.js:404-438 | the paragraph loop emits non-empty paragraphs whose concatenation is the filled items in order |
| ReadingOrder.DetectParagraphs | modules/reading-order.js:404-438 | no paragraph is empty, the paragraphs concatenate to the non-blank items in order, and there are at most as many paragraphs as such items |
| ReadingOrder.DetermineReadingOrder | modules/reading-order.js:25-55 | no items give no items; without a page width and with non-negative heights every item comes out once |
| BatchProcessor.OrDefault | modules/batch-processor.js:13-23 | a missing or zero option gives the default, any other value is kept |
| BatchProcessor.New | modules/batch-processor.js:12-24 | a new processor has nothing queued, running or finished, with concurrency 2, timeout 600000 and 1 retry unless given |
| BatchProcessor.AddFiles | modules/batch-processor.js:29-38 | one pending item per file is appended after the queue, in order; nothing else changes |
| BatchProcessor.Reset | modules/batch-processor.js:302-307 | the queue, the running count, the results and the errors are cleared; the settings stay |
| BatchProcessor.AddFilesTwice | modules/batch-processor.js:29-38 | adding files in two calls queues the same items as adding them in one |
| BatchProcessor.ResetForgets | modules/batch-processor.js:302-307 | a reset forgets every queued file, and a new processor is already reset |
| BatchProcessor.Extension | modules/batch-processor.js:201-206 | the extension is the format for txt, md, html and docx, and "txt" for any other format |
| BatchProcessor.GenerateFilename | modules/batch-processor.js:199-209 | the name is a prefix of the original (whole, or short by four characters) followed by "_processado." and the extension |
| BatchProcessor.FilenameOfPdf | modules/batch-processor.js:200 | a name ending in ".pdf", in any letter case, loses exactly that suffix |
| BatchProcessor.FilenameOfOther | modules/batch-processor.js:200 | any other name is kept whole |
| BatchProcessor.Or | modules/batch-processor.js:217-223 | `a \|\| b` on strings: `a` when it is present and non-empty, else `b` |
| BatchProcessor.FormatContent | modules/batch-processor.js:214-225 | the format's own field when truthy, else `text` when truthy, else "" |
| BatchProcessor.FormatContentEmpty | modules/batch-processor.js:214-225 | the content is empty exactly when every field on the format's chain is falsy, and docx or unknown formats read only `text` |
| BatchProcessor.Confidences | modules/batch-processor.js:273-276 | one confidence per result, a missing percentage read as 0 |
| BatchProcessor.AverageConfidence | modules/batch-processor.js:270-279 | the average is 0 for no results, and otherwise times the count gives the sum of the confidences |
| BatchProcessor.SumRealBounds | modules/batch-processor.js:273-276 | a sum of values within bounds lies within the bounds times the count |
| BatchProcessor.AverageBounds | modules/batch-processor.js:270-279 | the mean lies within any bounds that every confidence lies within |
| BatchProcessor.CountMethods | modules/batch-processor.js:284-297 | the structural and OCR counts add up to the number of results; only the exact method "ocr" counts as OCR, so a missing method is structural |
| BatchProcessor.CountMethodsAppend | modules/batch-processor.js:284-297 | counting two batches and adding equals counting them together |
| OcrEngine.DetectIfScanned | modules/ocr-engine.js:89-128 | an unreadable PDF gives the failed, not-scanned answer; otherwise min(3, pages) pages are checked, the average exists exactly when some page was checked, and times the pages checked it gives the total characters |
| OcrEngine.ScannedSpec | modules/ocr-engine.js:95-111 | a readable PDF is scanned exactly when it has pages and its first min(3, pages) pages average fewer than 100 characters |
| OcrEngine.AverageBelow | modules/ocr-engine.js:109-111 | a mean over n is below the bound exactly when the total is below the bound times n |
| OcrEngine.ScannedSamplesOnly | modules/ocr-engine.js:95 | pages after the third do not affect the decision |
| OcrEngine.Threshold | modules/ocr-engine.js:258 | a missing or zero threshold falls back to MIN_CONFIDENCE = 30; any other is kept |
| OcrEngine.WordTexts | modules/ocr-engine.js:264 | one text per word, in order |
| OcrEngine.FilterPage | modules/ocr-engine.js:260-266 | a page keeps the words at or above the threshold, its text becomes those words joined by spaces, and its other fields stay |
| OcrEngine.FilterLowConfidenceWords | modules/ocr-engine.js:257-268 | every page is filtered at the same threshold, page count and order kept |
| OcrEngine.FilterPageKeeps | modules/ocr-engine.js:262 | a page keeps exactly its words with confidence at or above the threshold, in their order |
| OcrEngine.FilterThresholds | modules/ocr-engine.js:262 | filtering at a threshold and then at a higher one is filtering at the higher one |
| OcrEngine.FilterPageIdempotent | modules/ocr-engine.js:260-266 | filtering a filtered page again at the same threshold changes nothing |
| OcrEngine.ConvertToLines | modules/ocr-engine.js:286-293 | at least one line; line k sits at y = 20k, x = 0, on a page 1000 high; no line holds a newline |
| OcrEngine.LineTexts | modules/ocr-engine.js:287 | one text per line, in order |
| OcrEngine.LinesRoundTrip | modules/ocr-engine.js:286-293 | joining the lines' texts with newlines gives back the recognised text |
| OcrEngine.LinesDescend | modules/ocr-engine.js:289 | lines appear top to bottom in text order |
| OcrEngine.MergeOcrPages | modules/ocr-engine.js:273-281 | one page per recognised page, in order, with its number and confidence, and its lines joining back to its text |
| PdfStructuralParser.DecodeByte | modules/pdf-structural-parser.js:237 | a byte below 0x80 decodes to the same code point, and an ASCII character comes only from that byte |
| PdfStructuralParser.Decode | modules/pdf-structural-parser.js:237 | one character per byte, each byte decoded on its own |
| PdfStructuralParser.BytesToString | modules/pdf-structural-parser.js:231-246 | the first min(length, maxLength) bytes, each decoded on its own |
| PdfStructuralParser.AsciiOccurs | modules/pdf-structural-parser.js:231-246 | an ASCII word occurs in the decoded text exactly where its bytes occur in the file |
| PdfStructuralParser.Digits | modules/pdf-structural-parser.js:80 | the length of the longest run of ASCII digits at the start |
| PdfStructuralParser.VersionAt | modules/pdf-structural-parser.js:80 | a match of `%PDF-` followed by digits, a dot and digits yields a well-formed version |
| PdfStructuralParser.FindVersion | modules/pdf-structural-parser.js:80 | whatever the search yields is a well-formed version |
| PdfStructuralParser.ExtractPdfVersion | modules/pdf-structural-parser.js:78-82 | the version is "1.4" or a well-formed `digits.digits` |
| PdfStructuralParser.FindVersionFound | modules/pdf-structural-parser.js:80 | the search finds a version exactly when some position at or after the start holds one |
| PdfStructuralParser.FindVersionLeftmost | modules/pdf-structural-parser.js:80 | a version is found exactly when some position holds one, and it is the one at the leftmost such position |
| PdfStructuralParser.VersionHeaderOnly | modules/pdf-structural-parser.js:79 | bytes after the first 20 never change the version |
| PdfStructuralParser.VersionOfHeader | modules/pdf-structural-parser.js:78-82 | a file opening with `%PDF-a.b` and a non-digit has version `a.b` |
| PdfStructuralParser.DigitsPrefix | modules/pdf-structural-parser.js:80 | the digit run of a string is fixed by its first n characters when the next one is not a digit |
| PdfStructuralParser.LocationsOf | modules/pdf-structural-parser.js:106-110 | one location per match, tagged with the pattern source, at the match's position and length |
| PdfStructuralParser.Matches | modules/pdf-structural-parser.js:102-112 | as many locations as matches of all patterns, each inside the text |
| PdfStructuralParser.MatchesSound | modules/pdf-structural-parser.js:102-112 | every location is a match of its pattern, patterns taken in order and matches left to right |
| PdfStructuralParser.SpansInText | modules/pdf-structural-parser.js:104-109 | ordered matches lie inside the text |
| PdfStructuralParser.DetectSignaturesWith | modules/pdf-structural-parser.js:88-119 | `found` exactly when the count is positive; the count is the number of locations and of matches over the first million bytes, each inside them |
| PdfStructuralParser.FindAnnotationsWith | modules/pdf-structural-parser.js:124-141 | one annotation per `/Annots [...]` match, in order: its position is the match's start (inside the scanned prefix, non-decreasing) and its content the trimmed capture group |
| PdfStructuralParser.NoOverlap | modules/pdf-structural-parser.js:149 | two `%%EOF` markers never overlap, so the global count is the number of positions holding one |
| PdfStructuralParser.ScanCountsAll | modules/pdf-structural-parser.js:149-151 | the left-to-right non-overlapping scan counts every marker position |
| PdfStructuralParser.SkipFree | modules/pdf-structural-parser.js:149-151 | skipping positions that hold no marker does not change the count |
| PdfStructuralParser.MarkersAgree | modules/pdf-structural-parser.js:147-152 | counting markers in the decoded text equals counting them in the bytes |
| PdfStructuralParser.IncrementalUpdatesSpec | modules/pdf-structural-parser.js:147-152 | the update count is the number of `%%EOF` byte sequences in the first million bytes |
| PdfStructuralParser.MetadataWith | modules/pdf-structural-parser.js:157-180 | one entry per key whose pattern matches |
| PdfStructuralParser.MetadataEntries | modules/pdf-structural-parser.js:172-176 | every entry holds a key whose pattern matches and its first capture |
| PdfStructuralParser.MetadataComplete | modules/pdf-structural-parser.js:172-176 | every key whose pattern matches has an entry |
| PdfStructuralParser.AnalyzeWith | modules/pdf-structural-parser.js:21-73 | an unreadable input gives the failure result (version "1.4", nothing found, the error message); otherwise every field is the result of its detector on the same bytes and objectCount is 0 |
| PdfStructuralParser.SignatureRegions | modules/pdf-structural-parser.js:189-198 | one signature region per location, spanning the match |
| PdfStructuralParser.AnnotationRegions | modules/pdf-structural-parser.js:201-210 | one annotation region per annotation, as long as its trimmed content |
| PdfStructuralParser.ComputeRemovalRegions | modules/pdf-structural-parser.js:185-213 | the signature regions first, then the annotation regions, nothing else |
| PdfStructuralParser.RegionsOfFile | modules/pdf-structural-parser.js:185-213 | for an analysed file there is one region per signature match and per annotation match, and each leading region spans a signature match in the text |
| PdfStructuralParser.RegionsOfFailure | modules/pdf-structural-parser.js:185-213 | a failed analysis has nothing to remove |
| IntelligentExtractor.Strip | test_intelligent_extractor.py:76 | stripping never lengthens a line |
| IntelligentExtractor.SegmentsContent | test_intelligent_extractor.py:75-110 | the documents hold exactly the lines read, in order |
| IntelligentExtractor.SegmentsCut | test_intelligent_extractor.py:79-97 | every document is non-empty; a new one starts exactly at a kind-naming line after more than 20 lines, and nowhere else |
| IntelligentExtractor.CutBefore | test_intelligent_extractor.py:81-95 | closing a document of more than 20 lines at a kind-naming line keeps the whole cut well formed |
| IntelligentExtractor.SegmentsExist | test_intelligent_extractor.py:100 | a non-empty input makes at least one document |
| IntelligentExtractor.Documents | test_intelligent_extractor.py:83-110 | document k is numbered k + 1, counts its lines and characters, and is classified from its first 500 characters |
| IntelligentExtractor.DetectDocumentsWith | test_intelligent_extractor.py:54-116 | at least one document (Python splits "" into one line), numbered 1, 2, ... |
| IntelligentExtractor.JoinAppend | test_intelligent_extractor.py:83 | joining two non-empty groups is joining each and putting the separator between |
| IntelligentExtractor.JoinFlatten | test_intelligent_extractor.py:83-101 | joining the joined groups is joining all their lines |
| IntelligentExtractor.DetectDocumentsSpec | test_intelligent_extractor.py:54-116 | joining the documents' texts with newlines gives back the input, and the cuts are exactly the ones the rule allows |
| IntelligentExtractor.FirstKindDecides | test_intelligent_extractor.py:122-133 | the first rule with a word that occurs decides the kind |
| IntelligentExtractor.FirstKindFallback | test_intelligent_extractor.py:134-135 | with no word occurring the kind is "DOCUMENTO" |
| IntelligentExtractor.FirstKindRange | test_intelligent_extractor.py:118-135 | the kind is a rule's kind or "DOCUMENTO" |
| IntelligentExtractor.ClassifyPriority | test_intelligent_extractor.py:118-135 | a beginning naming a petition is a petition whatever else it names, and one naming no kind is "DOCUMENTO" |
| IntelligentExtractor.NoiseCount | test_intelligent_extractor.py:170-190 | a line adds at most three to the removed count |
| IntelligentExtractor.CleanWith | test_intelligent_extractor.py:137-201 | the text keeps the lines showing no sign of noise, and the count adds each line's signs |
| IntelligentExtractor.CleanKeeps | test_intelligent_extractor.py:161-195 | the kept lines are an order-preserving selection of the input, every blank line is kept, and splitting the result gives the kept lines back |
| IntelligentExtractor.RemovedBounds | test_intelligent_extractor.py:170-193 | the removed count is at least the number of dropped lines and at most three times it |

## Left out

- Regular-expression semantics: every pattern is handed to an `Engine`, so what a pattern matches is a parameter, not a theorem.
- The global-flag cursor: `Cleaner.clean` calls `.test` on `/g` patterns and resets only one of them (modules/main-enhanced.js:166-168, modules/main-enhanced.js:286-293), so the source's answer can depend on earlier calls; the model's `test` is stateless.
- UI and DOM wiring: all of modules/main-v4.1.js, and the event handlers, progress bars, tabs, `sanitizeHTML`, `getWhitelist`, `getSelectedSystem` and `getSelectedMode` of modules/main-enhanced.js.
- PDF.js, Tesseract and canvas I/O: `extractFromPDF` and the per-page extraction, `initialize`, `processScannedPDF`, `preprocessImage` and `terminate`; the scanned decision takes the pages' text items as input instead.
- `hasTextLayer` in modules/pdf-structural-parser.js is a placeholder constant that the PDF.js path replaces.
- Concurrency and timers: `processAll`, `processItem` with the global timeout, `updateProgress` and `exportBatchResults` (a ZIP archive).
- The optional model-backed classifier: `initializeAI` and `_classifyWithAI` are asynchronous calls into a neural network.
- Presentation and exporters: `MarkdownConverter`, `HtmlConverter`, `exportToDocx`, `formatToMarkdown`, `formatToJSON`, `exportToMarkdown`, `exportToText` and every `generate*Report`; they fill string templates with dates.
- `toFixed` rounding in the confidence score, the cleaner statistics and `estimateCER`: values are kept as exact reals.
- `estimateWER`: it splits on a regular expression before measuring; the distance it uses is modelled.
- The djb2 `hash` in modules/main-enhanced.js: nothing calls it, and it depends on 32-bit integer coercions.
- server.py and test_batch.py: an HTTP server and a file-system driver; the printing in test_intelligent_extractor.py is dropped too.
- `_extractMetadata` of js/document_detector.js: it only copies regex captures into an object that no decision reads.
- Lengths count code points, whereas JavaScript counts UTF-16 units; the two differ only on characters outside the Basic Multilingual Plane.
- Case mapping and Python's `isdigit` are exact on ASCII and Latin-1 and leave other characters unchanged.
- Floating point is modelled as exact `real` arithmetic; a 0/0 that JavaScript turns into `NaN` is `None`. ReadingOrder is the exception, on the next line.
- ReadingOrder: coordinates, sizes (`x`, `y`, `width`, `height`, `fontSize`, `fontWeight`) and the page width are integers, whereas PDF.js produces fractional values; so the `Math.floor(item.x || 0)` of the column histogram is the identity, and behaviour that depends on fractional positions is not modelled.
- `normalizeConfidence`: the logistic curve is a table of its rounded values at the integer scores the type score can produce, not a real exponential.
- ReadingOrder: `spatialSort` is modelled as an insertion sort under the source's comparator. That comparator is not transitive, so the order `Array.prototype.sort` produces can differ; the model proves only the pairwise order of neighbours and the permutation.
- `removeHeader` and `normalizeBreaks` in modules/main-enhanced.js are never read by the code and are not modelled. The per-mode tuning is modelled (`MainEnhanced.ModeTuning`, `MainEnhanced.ModeMonotone`) but, as in the source, nothing downstream reads it.
- Plain objects indexed by a string are modelled as association lists or explicit lookups: the groups of `groupByType` and the type counts of modules/process-file-organizer.js, the extension table of modules/batch-processor.js, `SYSTEM_PATTERNS[opts.system]` in modules/main-enhanced.js, `thresholds[mode]` in js/intelligent_cleaner.js, and `this.systemPatterns[detectedSystem]` in modules/advanced-signature-cleaner.js. A key named after an `Object.prototype` member such as `constructor` or `toString` would find an inherited value in JavaScript; the model treats it as absent.
- ProcessFileOrganizer.EntriesFrom: a section entry does not carry the `metadata: doc.metadata || {}` field; it is an object copied through unread.
- PdfStructuralParser.AnalyzeWith: `objectCount` is always 0, as in the source; the `TextDecoder` call is modelled as windows-1252 decoding, which is what the `latin1` label selects.
- SignatureCleaner.ReplaceShrinks: holds only for engines whose matches of the pattern are at least as long as the replacement. A pattern alone cannot guarantee this to an arbitrary engine.
- SignatureCleaner.NormalizeShrinks: needs the space-run pattern to match at least one character and the newline-run pattern at least three, as their quantifiers promise.
- SignatureCleaner.CleanShrinks: needs the same two engine facts as NormalizeShrinks.

## Findings

| source | as written | input that shows it | evidently intended | confidence | as-written member | corrected member |
|---|---|---|---|---|---|---|
| modules/legal-document-analyzer.js:383-389 | `lastPos` starts at -1 and a separator is kept only if it lies more than 50 characters after `lastPos`, so no separator before position 50 is ever kept, and the text before the first kept separator belongs to no document | separators at 0 and 120 keep only 120, losing the first document | the first separator is always kept; only later ones within 50 characters of a kept one are dropped | not executed | LegalDocumentAnalyzer.DedupFirstSeparatorLost | LegalDocumentAnalyzer.SeparateCorrectedShape |
| modules/legal-document-analyzer.js:326-341 | the footer starts at `max(0, length - windowSize)` but the reported position is `length - windowSize + match.index` | the text "abc" with the default window of 500 and an end pattern matching at 0 reports position -497 | the position is measured from where the footer starts, so it is an index of the text | not executed | LegalDocumentAnalyzer.DetectDocumentEndNegative | LegalDocumentAnalyzer.DetectDocumentEnd |
