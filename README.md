# Triage decision engine, in Dafny

This project models the decision core of an employee-request triage service.
A free-text request goes through two steps:

- **The keyword classifier** normalises the text, then scores five request categories:
  - two points for each of a category's phrases found in the text;
  - one point for each of the text's word tokens in the category's token set.

  It then picks the best category, with ties going to the category declared first, and derives a confidence from the best score and its margin over the runner-up. When no category scores above 1 it falls back to `unknown` with confidence 0.35. It also extracts two signal flags.
- **The router** turns the classification and the request's urgency into a routing decision: destination queue, action, human-review flag and reasons. It applies its overrides in a fixed order:
  1. the 0.70 confidence threshold;
  2. the category table;
  3. forced human review;
  4. the urgency action;
  5. the authentication override.

The modules follow the source files:

- `Schemas` (`schemas.dfy`): the enumerations and records of `src/schemas.py`.
- `Text` (`text.dfy`): the string operations `src/classifier.py` relies on. These are normalisation, `in` on strings, `re.findall(r"[a-zA-Z']+", …)` and `str` of an integer.
- `Classifier` (`classifier.dfy`): `_score` and `classify`.
  - The scoring is generic over a `Tables` value holding the phrase lists and token sets. `SourceTables` holds the source's two dictionaries.
  - `Verdict` and `Classification` are the declarative specification.
  - The methods `Score`, `PhrasePass`, `TokenPass`, `ClassifyText`, `DecideScores` and `Classify` follow the loops and the step-by-step updates of the source. Each is proved equal to the specification.
- `Workflow` (`workflow.dfy`): `route`. It has the declarative `Routing` and the step-by-step `Route`, which is proved equal to it.
- `Triage` (`triage.dfy`): `route(classify(message), urgency)` and the properties of the two steps together.

Conventions:

- Confidences are integer hundredths, 0 to 100. Every term of the confidence formula is a multiple of 0.01, so the rounding to two decimals is the identity, and the threshold 0.70 is the integer 70.
- The tie-break order is the explicit sequence `CategoryOrder`. It is the declaration order of the keyword dictionary. This is the order in which the score dictionary is built and in which `max` meets its keys.

## Model

| member | source | states |
|---|---|---|
| Schemas.ParseCategory | src/schemas.py:5-12 | accepts a string exactly when it names one of the six categories, and returns that category |
| Schemas.ParseDestination | src/schemas.py:14-20 | accepts exactly the five queue names, and returns the queue named |
| Schemas.ParseUrgency | src/schemas.py:22 | accepts exactly "low", "medium" and "high" |
| Schemas.ValidateConfidence | src/schemas.py:33 | a confidence is accepted exactly when it lies in [0, 1] (0..100 hundredths), and is kept unchanged |
| Schemas.DefaultCollectionsAreEmpty | src/schemas.py:35-41 | records built without entities or reasons carry an empty mapping and an empty list |
| Text.ToLower | src/classifier.py:32 | a capital becomes the lower-case letter at the same place in the alphabet; every other character is unchanged; so the result is never a capital and is whitespace exactly when the input is |
| Text.LowerAll | src/classifier.py:32 | lower-cases character by character, keeping the length |
| Text.TrimLeft | src/classifier.py:32 | drops exactly the leading whitespace: the result is a suffix that starts with a non-space, and everything dropped is whitespace |
| Text.TrimRight | src/classifier.py:32 | drops exactly the trailing whitespace |
| Text.StripKeepsContent | src/classifier.py:32 | stripping removes whitespace only |
| Text.CollapseIsSingleSpaced | src/classifier.py:32 | after replacing whitespace runs with " ", every whitespace character is a single ' ' |
| Text.CollapseKeepsContent | src/classifier.py:32 | collapsing removes and replaces whitespace only |
| Text.CollapseOfSingleSpaced | src/classifier.py:32 | collapsing a text already single-spaced changes nothing |
| Text.NormalizeShape | src/classifier.py:31-32 | the normalised text has no leading or trailing whitespace, no whitespace other than single spaces, and no capitals; its non-space characters are the input's, lower-cased and in order |
| Text.CollapseAppend | src/classifier.py:32 | when the first part does not end in whitespace, collapsing a concatenation collapses each part on its own |
| Text.CollapseSpaceRun | src/classifier.py:32 | a whitespace run in front of a non-space becomes exactly one space |
| Text.CollapseJoin | src/classifier.py:32 | a whitespace run between a non-space and a non-space becomes exactly one space between the two collapsed sides |
| Text.NormalizeOfWord | src/classifier.py:31-32 | a text without whitespace is only lower-cased |
| Text.NormalizeDropsEdges | src/classifier.py:31-32 | whitespace added at either end of a text is dropped |
| Text.NormalizeJoin | src/classifier.py:31-32 | a whitespace run between two non-space characters becomes exactly one space between the normalised sides, so words are kept apart and never glued |
| Text.NormalizeIdempotent | src/classifier.py:31-32 | normalising twice equals normalising once |
| Text.IsSubstringIffOccurs | src/classifier.py:38 | `p in t` holds exactly when `p` occurs in `t` at some position |
| Text.WordPrefixLen | src/classifier.py:41 | the length of the maximal run of `[a-zA-Z']` at the start of a string |
| Text.Tokens | src/classifier.py:41 | every token is a non-empty run of letters and apostrophes |
| Text.TokensAreMaximalRuns | src/classifier.py:41 | a string is a token exactly when it is a maximal run of `[a-zA-Z']` in the text, one that no word character extends on either side |
| Text.TokensSplit | src/classifier.py:41 | a non-word character splits the token set into the tokens on either side |
| Text.TokensOfWord | src/classifier.py:41 | a single word is its own only token |
| Text.RepeatedWordAddsNoToken | src/classifier.py:41 | a word inserted at any space boundary adds exactly itself to the token set, and nothing when it already occurs as a token elsewhere in the text |
| Text.NatToString | src/classifier.py:78 | the decimal rendering of a score is a non-empty string of digits with no leading zero (only 0 itself renders as `0`) |
| Text.NatToStringRoundTrip | src/classifier.py:78 | reading the decimal rendering back gives the number |
| Classifier.IndexOf | src/classifier.py:11-29 | every category with keywords has a position in the declaration order |
| Classifier.CategoryTablesAgree | src/classifier.py:42-48 | both tables list each of the five categories exactly once |
| Classifier.CountContained | src/classifier.py:37-39 | the number of phrases found is at most the number of phrases |
| Classifier.CountContainedIsCardinality | src/classifier.py:36-39 | for a list without repetition, the phrase count is the number of distinct phrases found in the text |
| Classifier.CategoryScoreCounts | src/classifier.py:36-50 | a score is twice the number of the category's phrases found plus the size of the intersection of the text's tokens with its token set, hence bounded by the table sizes |
| Classifier.SourceScoreCounts | src/classifier.py:11-50 | the same count for the source's own tables |
| Classifier.RepeatedTokenScoresOnce | src/classifier.py:49-50 | a word inserted at any space boundary of a text adds at most one token point to a category, and none when the word already occurs as a token anywhere in the text |
| Classifier.ScoreMap | src/classifier.py:35 | the score dictionary has exactly the five categories as keys |
| Classifier.ArgMaxFirst | src/classifier.py:51 | `max` over the keys picks a maximal score, and every earlier position scores strictly less |
| Classifier.ArgMaxFirstIsUnique | src/classifier.py:51 | the first maximal position is the only position with both properties |
| Classifier.InsertDesc | src/classifier.py:59 | inserting into a descending list keeps it descending and adds exactly that element |
| Classifier.SortDesc | src/classifier.py:59 | `sorted(…, reverse=True)` is descending and a permutation of its input |
| Classifier.SecondBestIsMaxOfOthers | src/classifier.py:59-60 | the second entry of the descending sort is at most the best; it is reached by a position other than the chosen one and bounds all of them |
| Classifier.MarginIsGap | src/classifier.py:61 | `max(0, best - second)` is the gap itself, and it is 0 exactly when another position ties the best |
| Classifier.ConfidenceUnclamped | src/classifier.py:65-68 | the clamp never changes the confidence; it is at least 0.2, and at least 0.36 once the best score is 2 or more |
| Classifier.Entities | src/classifier.py:79-85 | `possible_order_issue` is present exactly when "order" or "tracking" occurs, `possible_auth_issue` exactly when "sso" or "login" occurs; no other key, every value true |
| Classifier.TopIndex | src/classifier.py:51 | the chosen position is one of the five |
| Classifier.VerdictFallback | src/classifier.py:70-76 | the fallback (`unknown`, 0.35, the fixed rationale, no flags) is returned exactly when no category scores more than 1, and the category is `unknown` exactly then |
| Classifier.VerdictSelectsFirstBest | src/classifier.py:51 | off the fallback, the category has the top score, no category scores more, and every category before it in the fixed order scores strictly less |
| Classifier.VerdictMargin | src/classifier.py:58-61 | the margin is the top score minus the runner-up; the runner-up is the best of the other four, and the margin is 0 exactly when two categories tie for the top |
| Classifier.VerdictConfidence | src/classifier.py:65-88 | the confidence is 0.2 + min(0.5, 0.08 best) + min(0.3, 0.12 margin) off the fallback and 0.35 on it; a category is chosen exactly when the confidence is 0.36 or more; a tie earns no margin bonus |
| Classifier.VerdictEntities | src/classifier.py:70-85 | off the fallback each flag is present exactly when its phrases occur; on it there are none; no other key, and every value true |
| Classifier.ClassificationOfNormalized | src/classifier.py:55 | classifying an already normalised message gives the same result |
| Classifier.AddPhraseHits | src/classifier.py:37-39 | the inner loop adds two points per phrase found to one category and changes no other |
| Classifier.PhrasePass | src/classifier.py:36-39 | the phrase loop leaves each category with its starting score plus its phrase points |
| Classifier.TokenPass | src/classifier.py:49-50 | the token loop, in the token table's own order, adds each category's token points |
| Classifier.Score | src/classifier.py:34-52 | `_score` returns the specified score dictionary and the first category in the fixed order with the top score |
| Classifier.ExtractEntities | src/classifier.py:79-85 | the flags block builds exactly the specified flags |
| Classifier.DecideScores | src/classifier.py:58-89 | the steps after `_score` produce the specified decision from the scores |
| Classifier.ClassifyText | src/classifier.py:56-89 | the body of `classify` after normalisation produces the specified verdict |
| Classifier.Classify | src/classifier.py:54-89 | `classify` produces the specified classification of the message |
| Workflow.FormatHundredths | src/workflow.py:21 | `{:.2f}` of a confidence is a digit, a point and two digits |
| Workflow.FormatHundredthsRoundTrip | src/workflow.py:21 | reading that rendering back gives the confidence |
| Workflow.QueueTable | src/workflow.py:6-13 | the table sends the two recognition categories to Recognition Ops, the nomination and policy ones to HR Ops, access to IT Support and `unknown` to Human Review, and nothing to Finance Ops |
| Workflow.Route | src/workflow.py:15-46 | the step-by-step `route` produces the closed-form decision |
| Workflow.ReviewBelowThreshold | src/workflow.py:19-27 | review is required exactly when the confidence is below 0.70, and then the destination is Human Review |
| Workflow.ConfidentDestination | src/workflow.py:23-38 | without review, the authentication flag sends the request to IT Support whatever the category; without the flag the table decides |
| Workflow.NeverFinance | src/workflow.py:23-38 | the destination is never Finance Ops |
| Workflow.ActionByUrgency | src/workflow.py:30-34 | the on-call action exactly for high urgency, the primary action otherwise |
| Workflow.ReasonsDiffer | src/workflow.py:21-39 | the three reasons are distinct strings |
| Workflow.ReasonsInStepOrder | src/workflow.py:16-39 | each reason is present exactly when its step fired, and their number is the number of steps that fired; they appear in step order; there are at most three; the low-confidence and authentication reasons never appear together |
| Triage.FallbackReason | src/workflow.py:21 | the fallback confidence yields the reason "Confidence 0.35 below threshold 0.70." |
| Triage.WeakSignalGoesToHumanReview | src/workflow.py:19-27 | when no category scores above 1, the request is reviewed in Human Review, the first reason reports 0.35 against 0.70, and the authentication override does not fire |
| Triage.StrongSignalSkipsReview | src/workflow.py:19-38 | a top score of 7 or more needs no review, and the request goes to IT Support on an authentication phrase and to the winner's queue otherwise |
| Triage.ReviewIffLowConfidence | src/workflow.py:19-20 | review is required exactly on the fallback or when the formula gives less than 0.70 |
| Triage.AuthPhraseGoesToIT | src/workflow.py:37-39 | a confident classification of a text with "sso" or "login" goes to IT Support with the authentication reason |
| Triage.UnknownGoesToHumanReview | src/workflow.py:12-27 | whenever the classifier answers `unknown`, the request is reviewed in Human Review |
| Triage.PipelineNeverFinance | src/workflow.py:6-38 | no message is ever routed to Finance Ops |
| Triage.PipelineOfNormalized | src/classifier.py:55 | the pipeline sees a message only through its normalised form |

## Left out

Left out as I/O or external code:

- `app.py` is not part of this model: the form, the generation of request identifiers and the rendering of the ticket. Its call order (classify, then route) is `Triage.Pipeline`.
- `src/logger.py` is not part of this model: wall-clock timestamps and the event list. `AuditEvent` and `TicketRecord` are kept as plain records. The audit details, a free-form dictionary in the source, are a tagged union of the three events the pipeline records.
- The validation machinery and JSON serialisation of the record library. Only the constraints they enforce are modelled: the enumerations and the confidence range.

Simplified:

- Characters are ASCII.
  - Whitespace is the ASCII set that Python's `str.isspace` accepts: 9 to 13, 28 to 31, and 32. The Unicode spaces that `str.strip` and `\s` also accept are not modelled.
  - Lower-casing maps only `A`-`Z`. Non-ASCII letters are not lower-cased.
- Floating point is not modelled.
  - Confidence is exact hundredths, and `round(confidence, 2)` is the identity.
  - The float sums at src/classifier.py:65-68 differ from their decimal values by far less than 0.005, so rounding recovers the same hundredths.
- `extracted_entities` holds booleans only. The classifier only ever stores true. The router's `.get(...)` truthiness becomes "present and true".
- `route`'s `urgency` is the `Urgency` enumeration rather than an arbitrary string, because requests are validated with that type. A non-enumerated string would behave like "low".
- Classifier.ClassifyText: it states the body of `classify` for any `Tables`. `Classify` fixes the source's tables. This keeps the literal tables out of the proofs about the general scoring.

Modelled even though unreachable:

- The default of `CATEGORY_TO_QUEUE.get(category, "Human Review")` is modelled, but the table covers every category, so it never applies.
- The `else 0` of `second_best` is modelled, but there are always five scores, so it never applies.
