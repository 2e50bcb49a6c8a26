# Verified models of ARCS Verify

ARCS Verify is a set of offline verifiers: each takes the bytes of somebody else's evidence, recomputes
what can be recomputed and reports separate conclusions, never a master verdict. This project models its
most intricate parts and proves what their combination guarantees. SHA-256, signatures, COSE, JSON Schema
validation, the RFC 8785 library, date parsing, HTML tokenising and files are parameters; where a digest
is used to conclude equality, the absence of a collision between the texts concerned is a stated
hypothesis.

- **Canonical JSON and digest binding** (`CanonicalJson`, `DigestBinding`, `CgExecutionReplay`, `CgReplay`):
  the code-point ordered text is injective on values, and nested digests that mask their own field bind a
  whole packet.
- **OKF declarations** (`OkfFrontmatter`, `OkfGrammar`, `OkfRoundTrip`, `OkfInertness`, `OkfPaths`, `OkfVerify`): the
  indentation-driven parser accepts exactly the layouts of a dict and inverts a printer written here as its
  specification; unknown keys are inert in the verifier, and every code has its condition.
- **C2PA comparison** (`C2paNative`, `C2paAxes`, `C2paObserved`, `C2paMatching`, `C2paRebuild`, `C2paComparison`,
  `C2paConformance`, `C2paIssues`, `C2paConsumed`, `C2paReport`, `C2paPipeline`, `C2paRuns`): findings on eight axes,
  a claim matched to a retained report as a multiset and rebuilt behind a schema, an ordered decision per axis, a
  second function that re-checks the result, and the staged pipeline.
- **Nesting guards** (`NestingGuard`): a byte scanner and a stack walk enforce one bound.
- **Codecs and preimages** (`Base64Url`, `LinePreimage`, `DagrAuthorityContext`, `DagrReceipt`, `DagrTexts`).
- **Analytics snapshots** (`AnalyticsSnapshot`, `AnalyticsConclusions`): distinct counting, and a report that does not see order.
- **Grounding spans** (`VisibleText`, `AcquisitionGrounding`, `GroundingFindings`): what is visible, and what each field's span proves.
- **Sequences** (`DeferredSequence`, `DeferredExtra`, `DeferredFindings`, `IngestRun`, `IngestFindings`): many loops with
  flags, whose guarantee is in their combination.
- **Evaluation cache and profiles** (`ScittRegistration`, `ExternalProfile`).

`Sorting`, `PyText` and `JsonValue` hold the Python operations the others share. Loops and objects of the
source are methods and classes proved against specification functions; the lemmas are about those
functions. A lemma whose name ends in `Exactly`, `Means` or `Told` says by the inputs' own fields, without the
functions it is about, when each result, code or conclusion comes about.

## Where the code does less than it says

- `_findings_mismatch` taken alone is too weak for what its caller does next: it compares codes by their
  printed form, so a numeric code matches a textual one and is then dropped when the report is rebuilt
  (`C2paRebuild.NumericCodeHidesFailure`; exactly when, per axis: `C2paConsumed.RebuiltAxisExactly`). The
  profile's field schema, which stands between the two, closes this: for every claim it admits the rebuilt
  axes are the retained ones (`C2paConsumed.ConsumedAxesAgree`, `C2paPipeline.ObservedSideFaithful`).
- Ingest accounting says every occurrence is accounted for; entries of the list that are not objects are
  skipped in silence (`IngestRun.CountsAddUp`, `IngestRun.NonObjectsUnseen`).
- A second defer_request in a deferred sequence is said to be caught by the check of the sequence ids; it is
  not when it repeats the id (`DeferredExtra.ExtraDeferExactly`).
- An ingest run passes with findings recorded when everything is linked and filed, there are no occurrences
  and a skip category is malformed (`IngestRun.PassedExactly`, `IngestRun.PassesWithFindings`).
- An assembled C2PA report can fail its own re-check (`C2paReport.UnequalTrustFails`);
  `C2paReport.BuiltReportConformant` says exactly for which two findings.
- A profile declaration without findings determines the class only for types that need kinds
  (`ExternalProfile.UnqualifiedSelection`).
- Line preimages are injective on newline-free values, but newlines are not excluded everywhere: two texts
  of an authority context may hold them (`DagrAuthorityContext.NewlinesForge`). Exactly which values share a
  preimage: `DagrReceipt.SharedPreimageExactly`, `DagrAuthorityContext.SharedPreimageExactly`.

## Model

| member | source | states |
|---|---|---|
| CanonicalJson.CanonicalDefined | arcs_verify/cg_replay.py:157-185 | A canonical text exists exactly for values nested at most 64 levels deep |
| CanonicalJson.WalkKeepsValue | arcs_verify/cg_execution_replay.py:132-150 | The depth-checked walk sorts every object and keeps the value it denotes |
| CanonicalJson.ReadDumped | arcs_verify/cg_replay.py:178-185 | A reader inverts the printer on every canonical value, whatever text follows that does not start with a digit |
| CanonicalJson.CanonicalTextReadBack | arcs_verify/cg_replay.py:157-189 | The canonical text has a left inverse: reading it back yields the value, with nothing left over |
| CanonicalJson.CanonicalTextIffEqual | arcs_verify/cg_execution_replay.py:132-159 | Two values have one canonical text exactly when they are equal, whatever the insertion order of any object |
| CanonicalJson.EscapeCharExactly | arcs_verify/cg_replay.py:178-185 | Which characters are written as themselves, with a letter, or with four hexadecimal digits |
| PyText.DecimalValue | arcs_verify/cg_replay.py:178-185 | A printed integer has the value it was printed from and no leading zero |
| Sorting.StrLeExactly | arcs_verify/cg_execution_replay.py:132-150 | One text is before another exactly when it is a prefix of it or the first character that differs is smaller |
| Sorting.SortForgetsOrder | arcs_verify/cg_execution_replay.py:132-150 | `sorted` yields one listing for exactly the inputs with the same elements, when no two distinct elements tie |
| DigestBinding.SealVerifies | arcs_verify/cg_execution_replay.py:198-242 | Storing the masked digest of a dict in the dict makes its own recomputation succeed and changes nothing else |
| DigestBinding.EqualDigests | arcs_verify/cg_replay.py:187-192 | Equal digests mean equal values unless the two canonical texts collide |
| DigestBinding.IsSha256Exactly | arcs_verify/cg_execution_replay.py:164-176 | Well formed is exactly the prefix with sixty-four characters behind it that pass the hexadecimal test |
| CgExecutionReplay.FilledExecution | arcs_verify/cg_execution_replay.py:211-242 | Filling query, result and execution digests from the inside out yields an execution whose three digests recompute |
| CgExecutionReplay.FilledPacketReproduced | arcs_verify/cg_execution_replay.py:247-362 | With the fixed schema fields and a projection digest in place, filling all nested digests from the inside out always verifies with every conclusion true; what a true conclusion means is ConclusionsExactly |
| CgExecutionReplay.ReproducedPacketsEqual | arcs_verify/cg_execution_replay.py:198-362 | Two packets for which reproduction is concluded, as ReproducedExactly has it, and that carry one packet digest are equal values unless their masked texts collide |
| CgExecutionReplay.ConclusionsExactly | arcs_verify/cg_execution_replay.py:284-362 | Of a packet that is judged, each conclusion is true exactly when the digest field it is about is well formed and is the digest of its own dict with that field masked; the result digest also equals the one the execution carries, and the packet id is the prefix of its digest |
| CgExecutionReplay.ReproducedExactly | arcs_verify/cg_execution_replay.py:247-362 | Reproduction is concluded exactly when the fixed schemas and kind are there and packet, packet id, projection, query, result and execution all recompute |
| CgExecutionReplay.FailureExactly | arcs_verify/cg_execution_replay.py:247-310 | Which failure code stops the verifier: the first of the fixed checks that fails |
| CgReplay.ReproducedExecutionsEqual | arcs_verify/cg_replay.py:211-354 | Two reproduced flat packets with one execution digest have equal query, result and projection digest, unless a named pair of texts collides |
| CgReplay.FilledFlatPacketReproduced | arcs_verify/cg_replay.py:211-354 | Storing the four recomputed digests in any packet of the right schema with a query, a result and a well-formed projection digest always verifies with every conclusion true |
| CgReplay.ConclusionsExactly | arcs_verify/cg_replay.py:240-354 | Of a flat packet that is judged, each conclusion is true exactly when the stored digest is well formed and is that of the part it names, told without the verifier |
| CgReplay.ReproducedExactly | arcs_verify/cg_replay.py:211-354 | Reproduction is concluded exactly when the packet is judged and all four digests recompute |
| CgReplay.FailureExactly | arcs_verify/cg_replay.py:211-260 | Which failure code stops the flat verifier: the first of its checks that fails |
| OkfFrontmatter.Tokenize | arcs_verify/okf_attested_computation.py:153-168 | The line loop yields the tokens of all kept lines, or the error of the first bad one |
| OkfFrontmatter.ParseListLoop | arcs_verify/okf_attested_computation.py:171-184 | The index loop computes the list grammar and ends where its unread suffix starts |
| OkfFrontmatter.ParseMappingLoop | arcs_verify/okf_attested_computation.py:187-221 | The mutually recursive loop computes the mapping grammar and terminates: every call consumes a token |
| OkfFrontmatter.ParseMapping | arcs_verify/okf_attested_computation.py:187-221 | A mapping stops only at the end or at a token with smaller indent, and leaves a suffix of its input |
| OkfFrontmatter.ParseFrontmatterLoop | arcs_verify/okf_attested_computation.py:224-249 | The fence scanner and the parser together compute the frontmatter grammar, error cases included |
| OkfRoundTrip.PrintedParses | arcs_verify/okf_attested_computation.py:134-249 | Every tree of plain scalars, non-empty scalar lists and non-empty mappings, printed at any indent and step inside fences, parses back to itself whatever body follows |
| OkfRoundTrip.SpelledParses | arcs_verify/okf_attested_computation.py:134-150 | The spelling of every scalar (null, booleans, integers, decimal fractions, one-line texts) reads back as that scalar |
| OkfRoundTrip.WrittenParses | arcs_verify/okf_attested_computation.py:134-249 | Every dict of values, its keys and those of nested dicts listed in any order, parses back to itself from its written form at any indent and step, whatever body follows |
| OkfRoundTrip.EveryDictWritten | arcs_verify/okf_attested_computation.py:134-249 | Every dict with plain keys whose values are such scalars, non-empty lists of them or non-empty dicts has a text that parses to it |
| OkfRoundTrip.ParsePrintedEntries | arcs_verify/okf_attested_computation.py:187-221 | Printed entries parse to their mapping and leave exactly the less indented tokens that follow |
| OkfInertness.TrailingContentExactly | arcs_verify/okf_attested_computation.py:243-249 | Trailing content is reported exactly when a later token is less indented than the first and everything before it parses |
| OkfInertness.MappingAppend | arcs_verify/okf_attested_computation.py:187-221 | Tokens no deeper than a mapping, appended to it, are parsed from where the mapping alone would have ended |
| OkfInertness.AccIndependent | arcs_verify/okf_attested_computation.py:187-221 | What parsing adds to a mapping does not depend on what was there |
| OkfInertness.InsertedLine | arcs_verify/okf_attested_computation.py:224-249 | A `key: scalar` line inserted at a top-level boundary of a parseable text changes only that key |
| OkfGrammar.ScalarExactly | arcs_verify/okf_attested_computation.py:134-150 | A text is read as a value exactly when its stripped form denotes it: the words for null and the Booleans, the numerals, quoted texts, and anything else as itself |
| OkfGrammar.LineExactly | arcs_verify/okf_attested_computation.py:153-168 | A blank line and a comment have no token; any other has one, counting the blanks before its content and dropping the white space after it |
| OkfGrammar.EntryExactly | arcs_verify/okf_attested_computation.py:187-210 | Which line is refused as an entry and for which reason: the first of the four that applies |
| OkfGrammar.ParsedExactly | arcs_verify/okf_attested_computation.py:171-249 | Tokens parse to a dict exactly when they are a layout of it: entries at one indentation, blocks of items or entries deeper behind the keys with nothing on their line |
| OkfGrammar.FrontmatterExactly | arcs_verify/okf_attested_computation.py:224-249 | A text parses to a dict exactly when its first line is a fence, a later one closes it, no line before that holds a tab, and the tokens of these lines are a layout of the dict |
| OkfVerify.Verification.CheckDeclaration | arcs_verify/okf_attested_computation.py:405-449 | The declaration checks record exactly the declaration codes and return the two paths and the receipt fields |
| OkfVerify.Verification.BindResource | arcs_verify/okf_attested_computation.py:468-493 | Binding a path records its one failure code, or returns the digest of the file it leads to; which paths do is BindingExactly |
| OkfVerify.Verification.CheckEvidence | arcs_verify/okf_attested_computation.py:498-530 | The evidence checks record the absent fields and the conflicting claims, and clear the flags accordingly |
| OkfVerify.Verify | arcs_verify/okf_attested_computation.py:365-544 | The imperative verifier computes the finding for every text, bundle and run evidence; CodesExactly and ConclusionsExactly tell that finding by the inputs |
| OkfVerify.PassedIffNoCodes | arcs_verify/okf_attested_computation.py:320-325 | A finding passes exactly when it carries no failure code |
| OkfVerify.PassedMeans | arcs_verify/okf_attested_computation.py:365-544 | A finding passes exactly when the declaration has the type and members asked of it, both resources are of an admitted shape and resolve to files, every receipt field is given and no digest claim is malformed or conflicts |
| OkfPaths.RefusedExactly | arcs_verify/okf_attested_computation.py:255-276 | A path is refused by its shape exactly when it is empty or absolute, has a single dot as a segment, or has two dots between slashes or at an end |
| OkfVerify.BindingExactly | arcs_verify/okf_attested_computation.py:468-493 | A refused path yields no digest and exactly its unsafe-reference code; any other yields a digest exactly when it resolves to a readable file, and otherwise the one code for what it resolves to |
| OkfVerify.CodesExactly | arcs_verify/okf_attested_computation.py:365-544 | Each failure code is reported exactly under its condition on the declaration, the bundle and the run evidence |
| OkfVerify.ConclusionsExactly | arcs_verify/okf_attested_computation.py:365-544 | Each conclusion of a parsed declaration is true exactly under its condition on the declaration, the bundle and the run evidence |
| OkfVerify.UnknownLineInert | arcs_verify/okf_attested_computation.py:42-44 | Inserting a line with an unrecognised top-level key leaves the whole finding unchanged |
| C2paNative.FileEntries | arcs_verify/c2pa_native.py:607-629 | The filing loop gives every axis its entries and lists the unmapped ones |
| C2paNative.AxesInOrder | arcs_verify/c2pa_native.py:635-665 | The axes are built in taxonomy order, each from its own entries; what status and class these give is StatusExactly and ClassExactly |
| C2paNative.BuildAxes | arcs_verify/c2pa_native.py:607-665 | Filing and folding together give the eight axes that AxesExactly, StatusExactly and ClassExactly tell by the entries |
| C2paNative.AxesDependOnFindings | arcs_verify/c2pa_native.py:535-665 | Status and reproducibility class of every axis depend only on which (scope, severity, code) findings occur |
| C2paAxes.ReadExactly | arcs_verify/c2pa_native.py:456-516 | The entries read from a report are exactly those its severity lists hold, with their scope, severity, code and urls |
| C2paAxes.StatusExactly | arcs_verify/c2pa_native.py:534-552 | Over the entries filed under an axis: failed with a failure, satisfied with a success and neither a failure nor a code declared indeterminate, indeterminate where such a code or information alone speaks, not evaluated otherwise; revocation never is |
| C2paAxes.AxesExactly | arcs_verify/c2pa_native.py:586-665 | Each axis holds exactly the entries that belong to it, as often as the report has them, and the eight axes come in order |
| C2paAxes.ClassExactly | arcs_verify/c2pa_native.py:555-584 | The class of an axis is its own, or the weakest among its own and those taken over from the codes that inherit one |
| C2paAxes.WeakestExactly | arcs_verify/c2pa_native.py:582-584 | The weakest class is the first that no other exceeds |
| C2paAxes.AnchoredExactly | arcs_verify/c2pa_native.py:629-634 | The validation clock is anchored exactly by a successful trusted timestamp, in either scope |
| C2paObserved.MismatchExactly | arcs_verify/c2pa_srs_observed.py:434-459 | No mismatch is reported exactly when all claims are objects, the triples agree as multisets and the claimed uris are, per triple, a sub-multiset of the urls |
| C2paObserved.CheckUris | arcs_verify/c2pa_srs_observed.py:448-459 | Removing claimed uris from per-key pools succeeds exactly on a sub-multiset |
| C2paObserved.CheckFindings | arcs_verify/c2pa_srs_observed.py:434-459 | The matching loop computes that decision |
| C2paMatching.MismatchTold | arcs_verify/c2pa_srs_observed.py:434-459 | Which mismatch is reported: a claim that is no dict; else a triple not claimed as often as it is carried, spelled by the members themselves; else a uri claimed more often than carried |
| C2paMatching.AdmittedExactly | arcs_verify/contracts/c2pa-srs-observation/v0.1/field.schema.json:41-62 | The schema admits exactly lists of dicts with the four known members, a known scope and severity, a non-empty code and a non-empty uri if any |
| C2paMatching.RebuildFailsExactly | arcs_verify/c2pa_srs_observed.py:848-863 | Rebuilding raises exactly on a value that cannot be looped over or a claim without code or scope or of unknown severity |
| C2paMatching.EntryTold | arcs_verify/c2pa_srs_observed.py:853-858 | An entry is rebuilt with the code of the claim and its uri as url, and with nothing else |
| C2paRebuild.RebuildLoop | arcs_verify/c2pa_srs_observed.py:848-863 | The bucket-filling loop builds the report, or fails on an unusable claim |
| C2paRebuild.RebuiltOccurs | arcs_verify/c2pa_srs_observed.py:848-863 | Reading the rebuilt report back finds exactly the claims with a textual code |
| C2paRebuild.TextClaimsUsable | arcs_verify/c2pa_srs_observed.py:434-459 | Matching claims whose codes are all texts can always be rebuilt |
| C2paRebuild.RebuiltFindingsExactly | arcs_verify/c2pa_srs_observed.py:848-863 | Of the two helpers alone: after a match the rebuilt report has the same findings as the retained one exactly when every claim has a textual code or an indistinguishable twin with one |
| C2paRebuild.RebuiltAxesAgree | arcs_verify/c2pa_srs_observed.py:848-863 | Of the two helpers alone: then every axis has the status, class and contributing classes of the retained report |
| C2paRebuild.RebuiltCompleteExactly | arcs_verify/c2pa_srs_observed.py:848-863 | Of the two helpers alone: after a match the rebuilt report has as many entries as the retained one exactly when every claimed code is a text |
| C2paRebuild.NumericCodeHidesFailure | arcs_verify/c2pa_srs_observed.py:434-459 | Of the two helpers alone: a claim with code 5 matches a retained failure "5" and yet rebuilds to no failure; the field schema refuses that claim |
| C2paConsumed.AdmittedClaims | arcs_verify/contracts/c2pa-srs-observation/v0.1/field.schema.json:41-62 | An observation the field schema admits claims nothing, or a list of findings each with a known scope and severity, a non-empty textual code and a textual uri if any |
| C2paConsumed.AdmittedRebuilds | arcs_verify/c2pa_srs_observed.py:848-863 | Admitted claims can always be rebuilt, and all their codes are texts |
| C2paConsumed.ConsumedAxesAgree | arcs_verify/c2pa_srs_observed.py:1044-1046 | For every admitted claim that matches the retained report, the rebuilt report has as many entries, and status and class on all eight axes and the clock anchor are those of the retained report |
| C2paConsumed.RebuiltAxisExactly | arcs_verify/c2pa_srs_observed.py:848-863 | Of the two helpers alone: after a match the rebuilt and the retained report agree on an axis exactly when the claims with textual codes fold to the same status and class as all claims |
| C2paComparison.DivergenceLicensed | arcs_verify/c2pa_native.py:830-979 | A possible substantive divergence is stated exactly when both statuses are known, differ, and no permitted explanation applies |
| C2paComparison.CompareSides | arcs_verify/c2pa_native.py:822-878 | The comparison loop yields the entry of every axis in order; which state and reason it has is MatchExactly, ReasonsExactly and LateReasonsExactly |
| C2paComparison.EmittedLegal | arcs_verify/c2pa_native.py:880-979 | Every pair of state and reason the procedure emits is in the matrix |
| C2paComparison.MismatchIsDivergence | arcs_verify/c2pa_native.py:880-979 | An axis is a mismatch exactly when both sides know its status, the statuses differ and no permitted explanation applies |
| C2paComparison.MatchExactly | arcs_verify/c2pa_native.py:880-979 | An axis is a match exactly when both statuses are known and equal, it is not revocation, bytes, validator and settings are the same, and so is the trust basis or the axis does not rest on it |
| C2paComparison.ReasonsExactly | arcs_verify/c2pa_native.py:880-943 | Each reason that is given before the statuses are compared has its exact condition on the two findings: it is the first that applies |
| C2paComparison.LateReasonsExactly | arcs_verify/c2pa_native.py:945-979 | So has each reason given to unequal statuses |
| C2paComparison.FindAxisExactly | arcs_verify/c2pa_native.py:822-878 | The finding compared for an axis is the last one of that name |
| C2paConformance.CheckReportLoop | arcs_verify/c2pa_native.py:1078-1256 | The mutating report check records exactly the issues of the report, in order |
| C2paReport.ConformantExactly | arcs_verify/c2pa_native.py:1111-1256 | A report passes every cross-object check exactly when it meets the declarative conditions |
| C2paIssues.IssueExactly | arcs_verify/c2pa_native.py:1078-1350 | Each issue is raised exactly under its own condition on the report, whatever else is wrong with it |
| C2paIssues.ComparableHolds | arcs_verify/c2pa_native.py:793-819 | Each comparability predicate holds exactly when the two findings agree on what it names |
| C2paReport.BuiltReportIssues | arcs_verify/c2pa_native.py:1015-1048 | An assembled report draws only aggregate-key and integrity issues, listed exactly |
| C2paReport.BuiltReportConformant | arcs_verify/c2pa_native.py:1015-1048 | An assembled report passes exactly when no key is forbidden and every axis on which the two findings know different statuses without a permitted explanation is byte-deterministic and the two trust bases are equal, a condition on the two findings alone |
| C2paReport.UnequalTrustFails | arcs_verify/c2pa_native.py:1015-1048 | Two byte-deterministic findings with different statuses and different trust bases: the assembled report fails its own check |
| C2paPipeline.Pipeline.Correspond | arcs_verify/c2pa_srs_observed.py:528-535 | The correspondence stage completes exactly when the other digests match and, where the native report was retained, the claimed findings match it |
| C2paPipeline.Pipeline.Construct | arcs_verify/c2pa_srs_observed.py:1025-1060 | Construction is refused where the mapping is, and otherwise yields the observed finding built from the rebuilt report |
| C2paPipeline.ObservedSideFaithful | arcs_verify/c2pa_srs_observed.py:1025-1060 | In every run that constructs an observed side from a recorded evaluation with a retained report, its axes and clock anchor are those of the retained report; construction is refused only where the mapping is |
| C2paPipeline.Pipeline.Consume | arcs_verify/c2pa_srs_observed.py:1670-1741 | Every stage ends as specified and the run stops at the earliest stage that did not complete |
| C2paPipeline.FirstIncompleteMeans | arcs_verify/c2pa_srs_observed.py:1744-1746 | The stop is the earliest incomplete stage; there is none exactly when all completed |
| C2paPipeline.RunOrder | arcs_verify/c2pa_srs_observed.py:1670-1741 | A stop in the first three stages leaves every later one unrun; the comparison completes only after all five others, and is restricted exactly for a not_comparable posture |
| C2paPipeline.ConsumeAndView | arcs_verify/c2pa_srs_observed.py:1461-1496 | For every run, a receipt declared not comparable has no axis view in match or mismatch; undisclosed timestamp trust bars the timestamp axis; all other views are the contract entries |
| C2paRuns.ConstructExactly | arcs_verify/c2pa_native.py:586-790 | A constructed finding carries what it was given, is hermetic, and has the axes of the report, or eight unevaluated ones without a report |
| C2paRuns.StagesExactly | arcs_verify/c2pa_srs_observed.py:1670-1741 | How far a run comes, stage by stage, by the claims of the observation, the schema, the mapping and the validator |
| C2paRuns.ObservedExactly | arcs_verify/c2pa_srs_observed.py:1025-1060 | The observed side has the givens of the mapping and the validation state the observation claims |
| C2paRuns.ComparisonExactly | arcs_verify/c2pa_srs_observed.py:1670-1741 | The comparison is not evaluated unless both sides were, refused over different bytes, and otherwise completed exactly when the report it yields meets the schema and every cross-object condition |
| C2paRuns.RestrictionExactly | arcs_verify/c2pa_srs_observed.py:1325-1366 | Scope and each reason of the restriction come from their own fields of the observation alone |
| C2paRuns.ViewExactly | arcs_verify/c2pa_srs_observed.py:1461-1496 | How an axis is shown: withheld under a receipt-wide restriction or, on the timestamp axis, without the authority material; otherwise as compared |
| NestingGuard.ExceedsNesting | arcs_verify/c2pa_test_signature0.py:111-128 | The byte loop computes the scan that skips strings whole and stops at the first excess |
| NestingGuard.ScanMeasuresDepth | arcs_verify/c2pa_test_signature0.py:43-51 | For every JSON text, any escapes and brackets in strings included, the scan reports exactly that containers nest deeper than the limit |
| NestingGuard.ScanText | arcs_verify/c2pa_test_signature0.py:111-128 | Scanning past any text at any depth finds its containers and restores the depth, whatever follows |
| NestingGuard.JsonDepth | arcs_verify/c2pa_srs_observed.py:359-373 | The explicit stack computes the container depth, at least one |
| NestingGuard.GuardsAgree | arcs_verify/c2pa_srs_observed.py:359-373 | Scan and stack walk draw the same line for every container at every limit, and for every text at any limit of at least one |
| Base64Url.DecodeOfEncode | arcs_verify/admission_event.py:223-232 | The lenient decoder inverts the padded encoder |
| Base64Url.StrictDecodeExactly | arcs_verify/admission_event.py:223-232 | Strict decoding yields bytes b exactly for the unpadded encoding of a non-empty b |
| Base64Url.AcceptedExactly | arcs_verify/admission_event.py:223-232 | The accepted texts are exactly the non-empty runs of URL-safe letters whose cut last quad has zero spare bits |
| Base64Url.LenientSkips | arcs_verify/admission_event.py:223-232 | The decoder underneath ignores a foreign character anywhere, which the strict one refuses |
| LinePreimage.SharedExactly | arcs_verify/dagr_v02.py:66-101 | With line starts that do not overlap themselves, another list of values has the same text exactly when some value holds its own line start (the first value apart) or the next one |
| LinePreimage.LinesInjective | arcs_verify/dagr_v02.py:66-101 | Newline-ended lines without newlines can be read back from their text |
| DagrAuthorityContext.ContextPreimage | arcs_verify/dagr_authority_context.py:152-174 | The string built in the role loop is the text of the context lines |
| DagrAuthorityContext.PreimageInjective | arcs_verify/dagr_authority_context.py:152-175 | On newline-free contexts equal preimages mean equal contexts, the number and content of the roles included |
| DagrAuthorityContext.ContextDigestBinds | arcs_verify/dagr_authority_context.py:152-175 | Two newline-free contexts with one digest are equal unless their preimages collide |
| DagrAuthorityContext.SharedPreimageExactly | arcs_verify/dagr_authority_context.py:152-175 | Newlines allowed: a context shares its preimage with another one of as many roles exactly when a value holds, after a newline, its own label or the next one with its equals sign |
| DagrAuthorityContext.NewlinesForge | arcs_verify/dagr_authority_context.py:152-175 | The last two fields, which need only be non-empty texts, can share one preimage in two ways |
| DagrTexts.ContextTextExactly | arcs_verify/dagr_authority_context.py:152-174 | The text digested for a context, line by line: the fixed header, each member under its label, the number of roles and a numbered line for each |
| DagrReceipt.SafeStr | arcs_verify/dagr_v02.py:57-63 | Walking a chain of keys yields the text at its end or nothing |
| DagrReceipt.BuildPreimage | arcs_verify/dagr_v02.py:66-101 | The line loop builds the preimage of the thirteen fields, or none when one is not a text |
| DagrReceipt.PreimageInjective | arcs_verify/dagr_v02.py:34-48 | On newline-free receipts equal preimages mean equal fields, all thirteen |
| DagrReceipt.SharedPreimageExactly | arcs_verify/dagr_v02.py:66-101 | Newlines allowed: a receipt shares its preimage with one of other fields exactly when a value holds, after a newline, its own label (the first field apart) or the next one with its equals sign |
| DagrReceipt.MatchingReceiptsAgree | arcs_verify/dagr_v02.py:105-190 | Two matching receipts that claim one digest agree on every field unless their preimages collide |
| DagrReceipt.SealedReceiptMatches | arcs_verify/dagr_v02.py:105-190 | Writing the recomputed digest into a receipt with all fields makes it match and changes none of them |
| DagrTexts.ReceiptTextExactly | arcs_verify/dagr_v02.py:66-101 | A receipt has a preimage exactly when its thirteen members are texts, and it is then the fixed header and one labelled line for each |
| DagrTexts.VerdictExactly | arcs_verify/dagr_v02.py:105-190 | Each of the five findings told by the members of the receipt: the fixed schema, the four domains, equal domains, five well-formed digests, and the digest of the preimage |
| AnalyticsSnapshot.RecountOrderFree | arcs_verify/analytics_snapshot.py:174-183 | Every recount depends on the multiset of observations only; what is counted is RecountExactly |
| AnalyticsSnapshot.PageViewsWithinRenders | arcs_verify/analytics_snapshot.py:174-183 | Page views never exceed page renders, and equal them exactly when no non-null (session, object) pair repeats |
| AnalyticsSnapshot.Verify | arcs_verify/analytics_snapshot.py:231-388 | The step-by-step verifier computes the report, or the earliest error, of every input; AnalyticsConclusions tells that report by the inputs |
| AnalyticsSnapshot.JudgePartition | arcs_verify/analytics_snapshot.py:300-341 | The partition checks draw their six conclusions and record their codes, or fail on an unhashable id or a refused digest |
| AnalyticsSnapshot.ReportComplete | arcs_verify/analytics_snapshot.py:231-388 | Every conclusion is drawn, and each code is reported exactly under its condition |
| AnalyticsSnapshot.OrderDoesNotMatter | arcs_verify/analytics_snapshot.py:300-337 | The complete report, or the error, is unchanged by permuting the observations |
| AnalyticsSnapshot.MetricFailsWithCode | arcs_verify/analytics_snapshot.py:371-388 | The metric axis fails exactly when a code other than a retention code is reported |
| AnalyticsSnapshot.MetricPassMeans | arcs_verify/analytics_snapshot.py:371-374 | A passing metric has a supplied partition with unique ids whose recount, as RecountExactly has it, and digest are the claimed ones |
| AnalyticsSnapshot.MetricIgnoresRetention | arcs_verify/analytics_snapshot.py:63-70 | Another schedule, source status or evaluation time leaves the metric axis and every recomputed value as they were |
| AnalyticsConclusions.RecountExactly | arcs_verify/analytics_snapshot.py:49-53 | By the text of the metric id: the number of observations with its action and transport, for page views the distinct (session, object) pairs and the renders without a session, and no recount for any other id |
| AnalyticsConclusions.MarksExactly | arcs_verify/analytics_snapshot.py:231-388 | Each conclusion of a report is drawn, and then passes, exactly under its condition on the inputs |
| AnalyticsConclusions.CodesExactly | arcs_verify/analytics_snapshot.py:231-388 | Each code is reported exactly under its condition on the inputs |
| AnalyticsConclusions.MetricExactly | arcs_verify/analytics_snapshot.py:371-374 | The metric axis passes exactly when all its conclusions are drawn and hold, and fails exactly when one is drawn and does not |
| AnalyticsConclusions.ReportExactly | arcs_verify/analytics_snapshot.py:371-388 | The digests, the value and the retention of a returned report |
| AnalyticsConclusions.RetentionExactly | arcs_verify/analytics_snapshot.py:391-413 | The retention verdict by source status, time and schedule |
| AnalyticsConclusions.StopsExactly | arcs_verify/analytics_snapshot.py:215-300 | Which error stops the verifier: the first that applies |
| VisibleText.NormalizeIdempotent | arcs_verify/acquisition_grounding.py:142-148 | Normalising keeps the words and is idempotent |
| VisibleText.NormalizeEqual | arcs_verify/acquisition_grounding.py:142-148 | Two texts normalise alike exactly when they have the same words |
| VisibleText.VisibleTextParser.Feed | arcs_verify/acquisition_grounding.py:118-139 | Feeding events leaves the counter and the visible nodes the specification gives |
| VisibleText.VisibleExactly | arcs_verify/acquisition_grounding.py:129-139 | A text is visible exactly when no run of events ending before it opens more script or style elements than it closes |
| VisibleText.ProjectHtmlVisibleText | arcs_verify/acquisition_grounding.py:151-164 | The parser and the join compute the projection |
| VisibleText.ProjectionNormalized | arcs_verify/acquisition_grounding.py:151-164 | The normalised projection is the blank-separated words of all visible nodes in order |
| GroundingFindings.VisibleNodesExactly | arcs_verify/acquisition_grounding.py:118-139 | The texts kept are, in order, those of the data events before which no run of events opens more script and style elements than it closes, counted by tag |
| AcquisitionGrounding.BindingExactly | arcs_verify/acquisition_grounding.py:308-319 | The binding conclusion passes exactly when the indexes are a bijection between entries and fields |
| AcquisitionGrounding.CheckEntries | arcs_verify/acquisition_grounding.py:322-391 | The loop clears its two flags, counts anchors and records findings exactly as the entries call for |
| AcquisitionGrounding.VerifyFields | arcs_verify/acquisition_grounding.py:303-394 | The judgement of binding, anchors and typing for every envelope, or the type error of unsortable indexes |
| AcquisitionGrounding.EveryFieldAccounted | arcs_verify/acquisition_grounding.py:309-391 | When binding, anchors and typing pass, each field has exactly one entry: abstractive without an anchor, or with an anchor into the captured artifact under the pinned profile whose slice has the words of the value |
| AcquisitionGrounding.FindingsExplain | arcs_verify/acquisition_grounding.py:322-391 | The loop records no finding exactly when both of its conclusions pass |
| GroundingFindings.BindingMeans | arcs_verify/acquisition_grounding.py:309-319 | By the indexes as they stand: the binding passes exactly on a one-to-one correspondence, and raises exactly on two or more entries that are neither all numbers nor all texts |
| GroundingFindings.EntryMeans | arcs_verify/acquisition_grounding.py:322-388 | An entry draws each of the seven codes exactly under its own condition, each once, in one order |
| GroundingFindings.CodesExactly | arcs_verify/acquisition_grounding.py:322-391 | A code is recorded exactly when some entry draws it with its own field |
| GroundingFindings.FlagsExactly | arcs_verify/acquisition_grounding.py:322-391 | The two conclusions pass exactly when none of their own codes is recorded |
| GroundingFindings.AnchorsExactly | arcs_verify/acquisition_grounding.py:385-389 | The anchors counted are the entries whose slice has the words of their own field |
| DeferredSequence.DeferredSequenceReport.Verify | arcs_verify/deferred_sequence.py:227-644 | All checks run; findings are those of every check in order, each conclusion is drawn from its own check, and the report passes exactly when each check is silent |
| DeferredSequence.DeferredSequenceReport.CheckReplay | arcs_verify/deferred_sequence.py:284-305 | The loop with its set of seen ids reports missing and repeated ids |
| DeferredSequence.DeferredSequenceReport.CheckPredecessors | arcs_verify/deferred_sequence.py:389-424 | The loop reports each missing or wrong predecessor reference |
| DeferredSequence.DeferredSequenceReport.CheckConditionLinks | arcs_verify/deferred_sequence.py:458-504 | The loop and the closing check report missing, wrong and impossible condition references |
| DeferredSequence.DeferredSequenceReport.CheckOutcomeLinks | arcs_verify/deferred_sequence.py:613-644 | The loop reports outcomes whose terminal reference is missing or unresolved |
| DeferredSequence.PassedIffNoFindings | arcs_verify/deferred_sequence.py:169-188 | A sequence passes exactly when no finding was recorded |
| DeferredSequence.DistinctIds | arcs_verify/deferred_sequence.py:284-305 | In a passing sequence receipt ids are pairwise distinct |
| DeferredSequence.TraceStepsBack | arcs_verify/deferred_sequence.py:389-424 | In a passing sequence predecessor references lead from any position back one receipt at a time to the nearest defer_request or the first receipt |
| DeferredSequence.OutcomeResolves | arcs_verify/deferred_sequence.py:587-644 | In a passing sequence every execution outcome names exactly one receipt, an admitted terminal admission |
| DeferredSequence.LinksAgree | arcs_verify/deferred_sequence.py:426-585 | In a passing sequence all defer and condition references name the first receipt of their kind, and no expired response was followed by a reevaluation |
| DeferredSequence.OneSequenceId | arcs_verify/deferred_sequence.py:372-387 | In a passing sequence all textual sequence ids are one |
| DeferredExtra.PassedDeclaratively | arcs_verify/deferred_sequence.py:239-644 | A sequence passes exactly when ids are named and distinct, every receipt is linked and fits the context of first ids and terminals, and there is one sequence id |
| DeferredExtra.ExtraDeferExactly | arcs_verify/deferred_sequence.py:389-400 | A defer_request put into a passing sequence, the next receipt referring to it, leaves it passing exactly when an earlier one stands before it, its id is new, it is valid with an operation digest, and its sequence id is the common one or no text |
| DeferredFindings.FoundExactly | arcs_verify/deferred_sequence.py:239-644 | A code is recorded against a receipt, or against the sequence, exactly when its condition on the receipts holds |
| DeferredFindings.ConclusionsExactly | arcs_verify/deferred_sequence.py:239-644 | Each of the thirteen conclusions is drawn exactly when its own codes are not recorded |
| DeferredFindings.PassedExactly | arcs_verify/deferred_sequence.py:169-188 | A sequence passes exactly when no code has its condition met |
| IngestRun.IngestRunSequenceReport.CheckReceipts | arcs_verify/ingest_run_sequence.py:510-746 | The receipt loop records every finding and makes each of the ten conclusions false exactly when its code was recorded |
| IngestRun.IngestRunSequenceReport.CheckCoverage | arcs_verify/ingest_run_sequence.py:748-876 | The coverage loop draws its three conclusions from what it recorded, or none without occurrences |
| IngestRun.IngestRunSequenceReport.Verify | arcs_verify/ingest_run_sequence.py:268-878 | The report of every pair of documents, unreadable ones included: all nineteen conclusions, the findings in order, and when it passes |
| IngestRun.AccountedExactly | arcs_verify/ingest_run_sequence.py:798-841 | The accounting is clean exactly when every occurrence that is an object lies in exactly one category |
| IngestRun.CountsAddUp | arcs_verify/ingest_run_sequence.py:798-841 | Then the four categories count every object occurrence once; they add up to all occurrences exactly when all are objects |
| IngestRun.PostureSkips | arcs_verify/ingest_run_sequence.py:843-866 | With both postures kept, a duplicate or parser-less occurrence is in exactly one skip category and was not emitted |
| IngestRun.NonObjectsUnseen | arcs_verify/ingest_run_sequence.py:798-800 | Occurrences that are not objects are passed over: any number of them is accounted for with no category holding any |
| IngestRun.PassedExactly | arcs_verify/ingest_run_sequence.py:200-225 | From the documents and receipts alone, exactly when a run passes and when nothing is found; the two part exactly when all is linked and filed, there are no occurrences and a skip category is no list of texts |
| IngestRun.PassedWithOccurrences | arcs_verify/ingest_run_sequence.py:200-225 | With at least one occurrence, passing means that nothing was found |
| IngestRun.PassesWithFindings | arcs_verify/ingest_run_sequence.py:200-225 | Without occurrences a run can pass with three findings recorded |
| IngestFindings.FoundExactly | arcs_verify/ingest_run_sequence.py:275-878 | Each code is recorded exactly when its condition on the members of the documents and receipt files holds |
| IngestFindings.FinishesExactly | arcs_verify/ingest_run_sequence.py:748-796 | The report is finished exactly when no skip category is a value that cannot be looped over |
| IngestFindings.ReceiptConclusionExactly | arcs_verify/ingest_run_sequence.py:510-746 | Each of the ten conclusions on the receipts: negative without both documents, undrawn without entries, else drawn exactly when its code is not recorded |
| IngestFindings.ConclusionsExactly | arcs_verify/ingest_run_sequence.py:275-934 | The nine other conclusions, each by its own codes and by which documents were read |
| IngestFindings.PassedMeans | arcs_verify/ingest_run_sequence.py:200-225 | A run passes exactly when both documents are read and no code is recorded, save that without occurrences a malformed skip category does not count |
| ScittRegistration.VerifyEntries | arcs_verify/scitt_registration.py:255-300 | The cached loop reports exactly what evaluating every entry afresh and dropping repetitions reports; relationships and duplicates add up to the entries |
| ScittRegistration.EvaluateEntry | arcs_verify/scitt_registration.py:257-279 | One round keeps the cache right and flags exactly the evaluations already listed |
| ScittRegistration.SameKeySameEvaluation | arcs_verify/scitt_registration.py:266-279 | Without collisions in the call, entries with one evaluation key are evaluated alike |
| ScittRegistration.ReportComplete | arcs_verify/scitt_registration.py:255-300 | Each entry finds its own fresh evaluation in the report; without a target nothing is dropped |
| ScittRegistration.KeysDistinct | arcs_verify/scitt_registration.py:255-300 | With a target, no two reported evaluations share a key |
| ScittRegistration.ReportOrdered | arcs_verify/scitt_registration.py:298-300 | The relationships are in the order of their keys |
| ScittRegistration.FreshExactly | arcs_verify/scitt_registration.py:257-279 | A carried entry is evaluated with its own bytes and selection, and its key digests the four digests in their places |
| ScittRegistration.ObservationExactly | arcs_verify/scitt_registration.py:257-297 | Each observation: duplicate exactly when a target was supplied and an earlier entry evaluates to the same, and in disagreement exactly when hint and authenticated service are both non-empty and differ |
| ScittRegistration.ReportPlaced | arcs_verify/scitt_registration.py:298-300 | The report is ordered by the keys, a refused entry by the text of its index |
| ExternalProfile.Classify | arcs_verify/external_profile.py:142-168 | The loop over classifications covers types and kinds and reports its findings, conflicts against the first class of a key included |
| ExternalProfile.CrossFieldFindings | arcs_verify/external_profile.py:121-187 | The findings are, each once, those whose order-free condition holds |
| ExternalProfile.SelectedClass | arcs_verify/external_profile.py:190-206 | The selection returns a class exactly when it is the only candidate |
| ExternalProfile.SelectionDetermined | arcs_verify/external_profile.py:121-206 | A declaration without findings that permits sdk_enforcement gives each such receipt of kind admission or outcome exactly one class |
| ExternalProfile.OrderAndRepetitionFree | arcs_verify/external_profile.py:121-206 | Findings and selection do not depend on order or repetition of the entries |
| ExternalProfile.UnqualifiedSelection | arcs_verify/external_profile.py:190-206 | For whatever type and kind a receipt holds, none included, a clean declaration selects a class exactly when some entry matches and unqualified and qualified matches agree |
| ExternalProfile.AmbiguousWithoutFindings | arcs_verify/external_profile.py:190-206 | A declaration without findings can leave a receipt of an unqualified type with two candidate classes |
| ExternalProfile.ReportedExactly | arcs_verify/external_profile.py:121-187 | When each finding on three lists is made, by the fields of the entries and the permitted texts |
| ExternalProfile.CandidatesExactly | arcs_verify/external_profile.py:190-206 | A class is a candidate exactly when an entry of the type names it, for no kind or for the kind of the receipt |

## Left out

- Floating-point numbers: canonical JSON, digests and indexes are modelled on null, booleans, integers, texts, lists and objects.
- Lone surrogates and the limit on the digits of printed integers, on which the source raises an error.
- UTF-8: texts are sequences of code points; only the nesting scan and base64url work on bytes.
- Python's `==` between booleans and numbers below the top level of a value; where it can matter for a scalar (indexes, event ids, metric values) it is modelled.
- Values that cannot be hashed: membership in a set then raises a type error in the source; modelled for analytics only.
- The number a decimal fraction denotes in an OKF scalar: it is kept as its literal. Digits other than ASCII ones: the model reads a text where the source reads a number.
- OKF paths: resolving a path under the bundle root is a function of the bundle; symbolic links and the file system are in it.
- Parts of the C2PA stages: in `C2paPipeline` parsing, the other matches of the correspondence stage, the rest of the profile check, the mapping's refusals and the native validator are arbitrary; the taxonomy and the reason matrix are parameters, assumed to have the eight axes in order and to cover every emitted pair.
- The texts of details, notes, limitations and status reasons in all reports.
- The report's human-readable views, and axes of the assembled observation report other than the comparison.
- Malformed reports given to `check_report`: the report is typed, with optional parts; the schema's own messages are a parameter.
- The C1 observation profile of analytics is not part of this model; that it makes event ids texts is a hypothesis, and session and object references are compared as the texts or nulls it admits.
- Dropped dispositions, lifecycle and authority keys in acquisition grounding: flat field checks.
- Field indexes that are lists: sorting them is taken as a type error.
- The verification of single receipts in a deferred sequence: its verdict comes with each receipt.
- The evaluation of one SCITT entry, and decoding its carriers: a function of target, statement, receipt and loaded selection; that it uses a key's PEM text only through the public key is part of that.
- The target size and receipt id hints of a SCITT sidecar: they depend on target and sidecar alone.
- Authority contexts have the closed shape their schema demands; the genesis checks around the digest are flat.
- Source-work, governed-memory and origin-authentication verifiers, semantic projections, publication modules and the command lines: mostly flat field equalities.
- RebuiltAxesAgree: one way only, as the axes may also agree when a finding was lost; exactly when they do is RebuiltAxisExactly.
- DagrAuthorityContext.SharedPreimageExactly: among contexts with as many roles; contexts that differ in their number of roles are covered on newline-free values only.
