# MEYAR's agent authority machinery

MEYAR ranks candidates against a vacancy, but what HR confirms is not a ranking: it is a draft of
criteria that an agent derived from a text, that several people's clicks and messages then edited, and
that has to be justified, word by word, by the source it came from. This project models the code that
carries this authority and proves what it promises. There are five parts.

1. **The draft and its provenance.** A source text becomes spans, spans become canonical requirements
   (two passes over them settle coordinated clauses and contradictions), requirements become a draft.
   The draft is edited by giving a modality, choosing one side of a contradiction, excluding a
   requirement, or sending a follow-up message that amends one field. At confirmation an independent
   builder re-derives everything from the source text and replays the amendments.
   The main result, `VacancyDraft.EditedVacancyAcceptedIff`, says exactly which editing sessions the
   builder accepts, over all texts, model proposals and sequences of edits; `DraftSoundness` and
   `RecordMeaning` say what an accepted draft and its record mean, for any draft whatsoever, however it
   came about. `ReviewItems` says what a built draft asks of HR, `DraftChoices` and `DraftMessages` when
   each click and message is accepted and what it does, and `ReviewCompletion` when clicks can finish the
   review at all.
2. **Turns.** Each turn reserves the conversation, leaves the database for model calls and comes back;
   between two of its transactions anything may happen. `TurnStore` is the shared rows and their
   transactions, `TurnProtocol` the transition system of all interleavings, `TurnGuarantees` the results.
3. **Clarification questions.** `Dialogue` is the liveness rule of a question, the resolution of an
   answer and the commit of a turn; `DialogueRuns` its invariant; `DialogueGuarantees` and
   `DialogueAnswers` the results.
4. **Spans of a message.** `Segmentation` and `MaterialSpans` are the interval arithmetic of the
   analysis, `Coverage` what it leaves out, `ClauseGroups` which spans belong together, `RoleRegistry`,
   `RegisteredRoles` and `AnalyzedRoles` the register of which words belong to what.
5. **The authority migration.** `AuthorityMigration` upgrades and downgrades the conversation tables.

Loops and in-place updates of the original are methods here, each proved equal to a function of its
inputs or of the old state; the properties are lemmas about those functions. Code that returns changed
copies (the draft edits, the dialogue rules, the schemas) is functions.

## What the results rest on

* Regular expressions, the alias vocabulary, folding and the prohibited-term list are functions in a
  `Lexicon`. The draft proofs ask of them that a canonical term and its display are not blank and that a
  displayed domain still names the same domain (`VocabularyOk`), and of a source what its analysis gives
  (`SourceOk`, which `MaterialSpans.AnalysisIsADraftSource` derives). The segmentation proofs ask only that
  matches are sorted, disjoint and in range (`LexiconOk`).
* `sha256` is any function; the one lemma that needs it to be injective says so. UUIDs are fresh numbers.
* A database transaction under the conversation's row lock is one atomic step. A model call is a gap in
  which every other step may happen.
* Span ids (`req-0001`, ...) are the positions of the spans, counted from 0.

## Where the plain statement is false

* *Every edited draft is accepted.* Amending a criterion and then merging a second span into it makes the
  supporting spans disagree: `DraftCounterexamples.AmendThenMergeIsRefused`. Reviewing before amending
  avoids it (`VacancyDraft.ReviewedThenAmendedVacancyIsAccepted`); `EditedVacancyAcceptedIff` is the
  exact condition.
* *HR can always finish a review by clicking.* A mention without a type whose amounts differ from what is
  scored for the same subject can be neither typed nor set aside: `ChoiceExamples.ClicksCannotFinish`.
  `ReviewCompletion.SessionCanBeFinishedIff` is the exact condition.
* *An amended year value is the value asked for.* `:g` keeps six significant digits
  (`YearValues.EncodingRoundTripsIff`, `DraftCounterexamples.SevenDigitsAreLost`).
* *Coordinated sides end alike.* A contradiction elsewhere in the text can still take one side away
  (`ExampleSources.ClauseCanEndUneven`); it is the only way (`CanonicalProperties.UnevenExactlyByConflict`).
* *Building never fails.* It succeeds if and only if every contradiction has a subject and at most 16
  alternatives, and every span that becomes an item of its own has at most 500 characters
  (`BuildOutcome.BuildSucceedsIff`). Each of the three does happen: two different amounts of general
  experience have no subject to name them by, 17 amounts of one skill overflow the options, and one long
  sentence without a modality overflows its item (`ExampleSources`). The joined text of a contradiction is
  cut to fit. Two parameter sets for one criterion, which the code guards against with a RuntimeError,
  cannot occur (`BuildOutcome.BuildFailsAtFirstObstacle`).
* *The id loop always stops.* With 999 ids taken a 60-character base has no candidate left
  (`CoreText.SlugCanBeExhausted`).
* *Upgrading only needs known owners.* The new context table checks `context_epoch >= 1`, which the old
  table never did; a row at epoch 0 aborts the upgrade
  (`AuthorityMigration.EpochZeroAborts`; `Tables.Upgrade` states exactly when it succeeds).

## Model

| member | source | states |
|---|---|---|
| VacancyDraft.EditedVacancyAcceptedIff | backend/src/meyar/agent/semantic_provenance.py:312-549 | For every text, proposals and sequence of edits of the built draft: the confirmation boundary accepts the result if and only if the built subjects are grounded in their spans, each merge was grounded and into a criterion still at its minted parameters, six digits hold the amended years, and there are at most 256 amendments |
| VacancyDraft.ReviewedThenAmendedVacancyIsAccepted | backend/src/meyar/agent/service.py:1416-1911 | Every session that finishes its review before the first follow-up, with grounded evidence and six-digit years, is accepted |
| ReviewCompletion.SessionCanBeFinishedIff | backend/src/meyar/agent/service.py:1416-1651 | At any point of any editing session, some further clicks leave nothing to resolve if and only if every question still asked is answerable: its shape stands, all that is scored or asked about its subject has its amounts, and a criterion for it exists or some item can create one |
| ReviewCompletion.ReviewCanBeFinishedIff | backend/src/meyar/ui/service.py:1029-1048 | The same for any draft under the edit invariant, with the confirmability rule itself (but for the flag of an ambiguous result count, which no click touches) |
| ChoiceExamples.ClicksCannotFinish | backend/src/meyar/ui/service.py:1045-1048 | A built draft that no sequence of clicks ever makes confirmable: one sentence requires five years of a skill, another names three years of it without a type |
| ChoiceExamples.KotlinStuck | backend/src/meyar/agent/canonical_requirements.py:329-371 | Such a text and vocabulary exist |
| VacancyDraft.CriteriaStayWellShaped | backend/src/meyar/schemas/criteria.py:416-456 | After any edits of any built draft every criterion has the value, years and level its kind calls for and no others, years within 0 to 60, and a valid id |
| BuildOutcome.BuildSucceedsIff | backend/src/meyar/agent/service.py:1041-1171 | Building succeeds if and only if every conflict's first span has a subject and at most 16 different parameter sets, and every span put aside, a scorable one whose criterion does not validate included, has at most 500 characters (length limits other than this one are not modelled) |
| BuildOutcome.BuildFailsAtFirstObstacle | backend/src/meyar/agent/service.py:1041-1171 | A failed build reports exactly the first obstacle in source order, decided from the spans alone; the collision RuntimeError is never reached |
| BuildOutcome.SpanStates | backend/src/meyar/agent/service.py:1041-1199 | Every span of a built draft, decided from the canonical requirements: scored exactly when its own criterion validates or an earlier span of its requirement has made one, else under review without a shape; place, text, type and authority as read |
| ReviewItems.MustHavesBlock | backend/src/meyar/agent/service.py:1124-1152 | A span that states must-have and is left under review is claimed by exactly one item, which blocks, is bound to the span or its conflict, and is not excluded |
| ReviewItems.ItemsSayTheirSpans | backend/src/meyar/agent/service.py:1084-1152 | Every other item says one span, blocks exactly when that span is under review and states must-have, names a subject exactly when the shape was validated, and offers both types exactly when then the type alone is missing; every span left to itself has its item; a conflict item blocks and lists its alternatives in source order |
| ReviewItems.JoinedShowsEveryText | backend/src/meyar/agent/service.py:1097-1100 | The joined text of a conflict holds the whole text of each of its spans, in order, with nothing but separators between |
| ReviewItems.CriteriaSayTheirSpans | backend/src/meyar/agent/service.py:1041-1083 | Every criterion of a built draft has the kind, type and amounts of a span scored for it, under the subject shown for that span |
| ReviewItems.DisclosedAndCounted | backend/src/meyar/agent/service.py:1115-1123 | The unsupported list is the unsupported spans with their texts and types, in order, and the prohibited count is their number |
| ExampleSources.UnscopedExperienceStopsBuilding | backend/src/meyar/agent/service.py:1086-1088 | Two sentences with different amounts of general experience, laid out in a text, trip the subject assertion |
| ExampleSources.ManyAmountsStopBuilding | backend/src/meyar/agent/schemas.py:502-503 | Any 17 or more sentences with different years of one skill overflow the review item's options |
| ExampleSources.LongSentenceStopsBuilding | backend/src/meyar/agent/schemas.py:489-489 | One sentence of more than 500 characters without a modality overflows its review item |
| VacancyDraft.NothingIsDropped | backend/src/meyar/agent/service.py:1041-1171 | Every span of the source is scored for a criterion of the draft, put up for review, disclosed as unsupported, or counted and redacted as prohibited |
| DraftBuilt.BuildKeepsInvariant | backend/src/meyar/agent/service.py:996-1199 | After any number of spans the draft so far satisfies the edit invariant's parts with distinct ids and requirements, every criterion holding exactly the parameters its first span states |
| DraftBuilding.BuildAuthorizedDraft | backend/src/meyar/agent/service.py:996-1199 | The building loop with its reserved ids and criteria by requirement computes the specification's draft, or its first failure; what that draft says is `SpanStates` and the `ReviewItems` rows |
| DraftLifecycle.EditKept | backend/src/meyar/agent/service.py:1416-1911 | Any edit, accepted or refused, keeps the invariant: distinct ids and requirements, bucket as type, scorable spans naming exactly the criteria, one decision per span, gap-free numbering, chains leading from minted to current parameters; spans keep their text and place and only move from review to scorable |
| DraftLifecycle.RunKept | backend/src/meyar/agent/service.py:1416-1911 | The same over every run of edits, with agreement of all evidence decided exactly by the merges of the run |
| DraftLifecycle.RunAcceptedIff | backend/src/meyar/agent/semantic_provenance.py:312-549 | From any just-built draft, acceptance of any run's result is equivalent to agreeing sources, harmless merges, six-digit years and the amendment bound |
| DraftLifecycle.ResolvingFirstMergesHarmless | backend/src/meyar/agent/service.py:1456-1494 | When the review ends before the first follow-up, every grounded merge of the run is harmless |
| DraftLifecycle.ResolvedThenAmendedIsAccepted | backend/src/meyar/agent/semantic_provenance.py:312-549 | Completeness: resolutions first and amendments after them are accepted |
| DraftAcceptance.AcceptedIff | backend/src/meyar/agent/semantic_provenance.py:312-549 | For any draft under the edit invariant, the builder and every validator of its record accept exactly when the sources agree, the years are six-digit and the amendments fit |
| DraftPreservation.ModalityKeepsInv | backend/src/meyar/agent/service.py:1416-1518 | Giving a modality scores exactly that one span, for an existing criterion of the same requirement or a fresh id, and keeps the invariant; evidence agrees afterwards exactly when it did and the merge is harmless |
| DraftPreservation.ConflictKeepsInv | backend/src/meyar/agent/service.py:1539-1609 | Choosing an option takes one conflict item of the draft, scores exactly its spans for one new criterion with exactly the option's parameters, and keeps the invariant and the agreement of evidence; when a choice is accepted is `ConflictAcceptedIff` |
| DraftPreservation.ExcludeKeepsInv | backend/src/meyar/agent/service.py:1612-1651 | Excluding a blocking requirement adds exactly one decision for a span that had none, changes no span, criterion or amendment, and keeps the invariant |
| DraftChoices.ConflictAcceptedIff | backend/src/meyar/agent/service.py:1539-1576 | A conflict choice is accepted if and only if an open item of that span has options, the index is one of them, each of its spans grounds the subject (general experience needs none), nothing is scored for the requirement yet, and the option's criterion validates |
| DraftChoices.ChoiceIsCarriedOut | backend/src/meyar/agent/service.py:1562-1609 | Then exactly one criterion joins the list of its type, with a free id, the item's subject and an option that one of the spans states; exactly the conflict's spans become its evidence, the item goes, the choice is recorded, and nothing else changes |
| DraftChoices.ModalityAcceptedIff | backend/src/meyar/agent/service.py:1416-1466 | Giving a type is accepted if and only if the span's item allows it, the subject still stands in the span's words, and the criterion about it says the same or, when there is none, validates |
| DraftChoices.DecisionIsCarriedOut | backend/src/meyar/agent/service.py:1456-1518 | Then the span becomes evidence of the criterion about its subject, old or new, with the source's amounts and the type given; the item goes, the decision replaces any earlier one of that span, and nothing else changes |
| DraftChoices.ExcludeAcceptedIff | backend/src/meyar/agent/service.py:1612-1626 | An exclusion is accepted if and only if the span's item blocks and is not excluded yet |
| DraftChoices.ExclusionIsCarriedOut | backend/src/meyar/agent/service.py:1627-1651 | Then that item alone is marked and one decision recorded |
| ChoiceExamples.FiveYearsAreChosen | backend/src/meyar/agent/service.py:1539-1609 | Three and five years of one skill are required, in two sentences laid out in a text; the built draft offers both in that order, and choosing the second gives one criterion of five years with both sentences as evidence |
| ChoiceExamples.TypeIsGiven | backend/src/meyar/agent/service.py:1495-1518 | One sentence names a skill without a type; either click makes it the draft's one criterion, of that type |
| ChoiceExamples.UnknownIsSetAside | backend/src/meyar/agent/service.py:1612-1651 | One sentence requires an unknown skill; its item blocks, and setting it aside is accepted and scores nothing |
| ChoiceExamples.KotlinForYears | backend/src/meyar/agent/canonical_requirements.py:329-371 | A text and vocabulary for the first of these exist |
| ChoiceExamples.KotlinUntyped | backend/src/meyar/agent/canonical_requirements.py:418-468 | And for the second |
| ChoiceExamples.ZorblaxRequired | backend/src/meyar/agent/canonical_requirements.py:418-468 | And for the third |
| DraftAmendments.FollowUpKeepsInv | backend/src/meyar/agent/service.py:1719-1911 | A follow-up message keeps the invariant with the same minted parameters and cannot make evidence disagree; which message is accepted and what it changes are the `DraftMessages` rows |
| DraftMessages.MessageAcceptedIff | backend/src/meyar/agent/service.py:1719-1911 | A message about criteria is accepted if and only if exactly one criterion can be meant (named, else at the old level, else at the old number of years, else of the other type), what it asks for makes a valid criterion, and the change can be written down |
| DraftMessages.MessageChangesOneField | backend/src/meyar/agent/service.py:1798-1911 | Then that criterion alone changes, in one field, to the last value given; it is listed by its type, its spans carry it, one more amendment names its first span and both values, and nothing else changes |
| DraftMessages.AmbiguousMessageIsTurnedDown | backend/src/meyar/agent/service.py:1798-1799 | Two criteria that can be meant, or none, leave the draft alone |
| DraftMessages.OneTargetIff | backend/src/meyar/agent/service.py:1764-1800 | The code's filtered target list is one criterion exactly when that criterion is the only one the message can mean |
| DraftMessages.MessageSetsTheLimit | backend/src/meyar/agent/service.py:1731-1749 | A message that counts results is accepted exactly when it names the present limit, and only sets the new one, kept within 1 to 100 |
| DraftAmendments.AmendedChains | backend/src/meyar/agent/service.py:1854-1911 | After one more amendment in the one global list, every criterion's own filtered chain still replays from its minted to its current parameters |
| DraftAmendments.AmendedBuckets | backend/src/meyar/agent/service.py:1854-1911 | After an amendment every other criterion is in the bucket it was in, and the amended one in the bucket of its type and in no other |
| DraftCounterexamples.AmendThenMergeIsRefused | backend/src/meyar/agent/semantic_provenance.py:462-463 | A text of two sentences is built into a draft; amend its criterion, then merge the second mention: the editor permits both, the builder refuses the result |
| DraftCounterexamples.MentionsAreBuilt | backend/src/meyar/agent/service.py:1041-1171 | Two disjoint sentences naming one skill, the second without a modality, build into one criterion and one item that offers both modalities |
| DraftCounterexamples.KotlinTwice | backend/src/meyar/agent/canonical_requirements.py:418-468 | Such a text and vocabulary exist: "Kotlin is required. Knows Kotlin." |
| DraftCounterexamples.SevenDigitsAreLost | backend/src/meyar/agent/schemas.py:609-615 | 2.1234567 years are written down as 2.12346 |
| DraftSoundness.AcceptedParametersAreReplayed | backend/src/meyar/agent/semantic_provenance.py:380-480 | In any accepted draft, however made, each confirmed criterion is the ordered replay of its amendments from one origin that every one of its spans justifies |
| DraftSoundness.OriginIsJustified | backend/src/meyar/agent/semantic_provenance.py:412-445 | An origin is the re-derived source parameters, those with the reviewer's modality where the source had none, or one of exactly the re-derived conflicting options |
| DraftSoundness.JustificationIsUnique | backend/src/meyar/agent/semantic_provenance.py:412-445 | Conversely, any of the three justifications fixes the origin |
| DraftSoundness.ModalityChangesAreRecorded | backend/src/meyar/agent/semantic_provenance.py:380-480 | An accepted criterion is stricter or laxer than its source sentence only through a recorded type amendment or a recorded conflict choice |
| DraftSoundness.AcceptedParametersAreDetermined | backend/src/meyar/agent/semantic_provenance.py:312-549 | Two accepted drafts with the same source digest, spans and recorded human actions agree on the parameters and kind of every criterion |
| DraftSoundness.RecordPartitionsTheSpans | backend/src/meyar/agent/semantic_provenance.py:229-301 | The record of an accepted draft holds every span exactly once: under the one criterion it supports when scorable, as left out otherwise |
| RecordMeaning.LeftOutIsExplained | backend/src/meyar/agent/semantic_provenance.py:483-522 | The record of an accepted draft has exactly one entry for every span that is not scored: redacted when prohibited, otherwise with the source's text and the reason that it was excluded, unsupported or only reviewed |
| RecordMeaning.TakenOutIsAcknowledged | backend/src/meyar/agent/semantic_provenance.py:524-533 | A span is recorded as excluded exactly when the draft shows an acknowledged item for it |
| RecordMeaning.EvidenceIsTheSource | backend/src/meyar/agent/semantic_provenance.py:380-480 | Every confirmed criterion has evidence, each piece an exact slice of the re-analysed source of the criterion's family that grounds it, and its amendments point nowhere else |
| RecordMeaning.RecordCarriesTheDraft | backend/src/meyar/agent/semantic_provenance.py:534-549 | The record carries the draft's identity, digest and human actions unchanged, and each confirmed criterion with its values and exactly its spans |
| RecordMeaning.ConfirmedAreTheScored | backend/src/meyar/agent/semantic_provenance.py:335-358 | The confirmed criteria are the draft's, each named by a scorable span, one for each requirement |
| RecordMeaning.ActionsTookEffect | backend/src/meyar/agent/semantic_provenance.py:243-301 | Every human action an accepted draft carries took effect: amendments are numbered without a gap, each of a confirmed criterion and one of its spans; each conflict choice is fulfilled by one criterion that holds all its spans and starts from the option chosen; no span has two decisions |
| ProvenanceBuilder.BuildSemanticProvenance | backend/src/meyar/agent/semantic_provenance.py:312-549 | The builder with its tables and early refusals accepts exactly the provable drafts and returns their record |
| ProvenanceBuilder.IndexDecisions | backend/src/meyar/agent/semantic_provenance.py:360-364 | Indexing succeeds exactly when no span has two decisions and every span is known, and the table answers for every span |
| ProvenanceBuilder.IndexResolutions | backend/src/meyar/agent/semantic_provenance.py:365-370 | Indexing succeeds exactly when no span is resolved twice and every span is known |
| ProvenanceBuilder.DeriveOptions | backend/src/meyar/agent/semantic_provenance.py:414-429 | The options of a conflict are re-derived from its spans as a set, without repeats, exactly when all of them state a modality |
| ProvenanceBuilder.ExplainCriterion | backend/src/meyar/agent/semantic_provenance.py:380-480 | One confirmed criterion is explained exactly when it is provable, and then by its record |
| SemanticProvenance.ReplayAmendments | backend/src/meyar/agent/semantic_provenance.py:178-192 | The loop is the chain's replay, refusing at the first link whose previous value does not fit |
| SemanticProvenance.ReplayComposes | backend/src/meyar/agent/semantic_provenance.py:178-192 | Replaying a concatenation is replaying its parts one after the other, refusals included |
| RecordMeaning.ReplayedIffLinked | backend/src/meyar/agent/semantic_provenance.py:160-192 | A chain of amendments is replayed if and only if there is a value for each of its points such that every link starts from the value that stands and moves its one field to the value it gives |
| YearValues.EncodingRoundTripsIff | backend/src/meyar/agent/schemas.py:609-615 | An encoded year value decodes to itself if and only if six significant digits hold it |
| YearValues.EncodedIsCanonical | backend/src/meyar/agent/schemas.py:638-654 | An encoded year value is in range and canonical, as the amendment validator demands |
| YearValues.EncodedIsNearest | backend/src/meyar/agent/schemas.py:609-615 | Of all values with six significant digits the encoded one is the nearest, the even one of two |
| CanonicalProperties.CanonicalizeRequirements | backend/src/meyar/agent/canonical_requirements.py:471-571 | Bucketing, interpreting and the two passes compute one canonical requirement per span, in span order |
| CanonicalRequirements.Interpret | backend/src/meyar/agent/canonical_requirements.py:491-536 | A span is lifted exactly when it is liftable and all valid proposals name one subject, whose first display it takes |
| CanonicalMeaning.ReadingIsExact | backend/src/meyar/agent/canonical_requirements.py:384-536 | The reading of one span by its words and the proposals for it, condition by condition: prohibited, unsupported, scorable and under review, the authority, the shape, the subject and the reason |
| CanonicalMeaning.ScoredStandsOnTheSource | backend/src/meyar/agent/canonical_requirements.py:471-571 | Whatever the proposals, a span that ends scorable contains nothing prohibited, states its type, and has a subject canonical in the source or vouched for by a proposal for this very span |
| CanonicalMeaning.WaitingHasOneReason | backend/src/meyar/agent/canonical_requirements.py:471-571 | A span that ends under review waits for its own reason, for an unsettled side of its clause, or for a contradiction elsewhere |
| CanonicalRequirements.ApplySymmetry | backend/src/meyar/agent/canonical_requirements.py:538-565 | Settling the groups one after another on the list being updated demotes exactly the scorable spans with an unsettled side |
| CanonicalRequirements.ApplyCollisionPolicy | backend/src/meyar/agent/canonical_requirements.py:329-371 | The pass with its groups and running number marks exactly the spans another scorable span contradicts, numbered in the order the requirements appear |
| CanonicalProperties.ProposalsOnlySettleSubjects | backend/src/meyar/agent/canonical_requirements.py:418-571 | For any two proposal lists, every span keeps its modality, years, level and kind, and whether it is prohibited or unsupported |
| CanonicalProperties.OneParameterSet | backend/src/meyar/agent/canonical_requirements.py:329-371 | After the pass, scorable spans of one requirement carry one parameter set |
| CanonicalProperties.CollisionIsIdempotent | backend/src/meyar/agent/canonical_requirements.py:329-371 | A second pass changes nothing |
| CanonicalProperties.ConflictNumbersAreRequirements | backend/src/meyar/agent/canonical_requirements.py:346-371 | Two conflicting spans carry the same number exactly when they state the same requirement |
| CanonicalProperties.UnevenExactlyByConflict | backend/src/meyar/agent/canonical_requirements.py:538-571 | A side of a clause ends scorable beside one under review exactly when that one alone is contradicted elsewhere, and it is marked SEMANTIC_CONFLICT |
| ExampleSources.ClauseCanEndUneven | backend/src/meyar/agent/canonical_requirements.py:538-571 | Such a source exists: disjoint slices of one text, a clause of two sides and a later sentence against one of them |
| CoreText.SlugifyCriterionLabel | backend/src/meyar/core/text.py:66-82 | Whenever some candidate is free, the loop returns the first free one, a valid id not used before, and reserves it |
| CoreText.SlugTerminatesIff | backend/src/meyar/core/text.py:66-82 | The loop stops if and only if one of its first candidates, before truncation, is free |
| CoreText.SlugStopsEarly | backend/src/meyar/core/text.py:66-82 | With fewer than 999 reserved ids it stops within one more try than there are reserved ids |
| CoreText.TruncatedCandidateRepeats | backend/src/meyar/core/text.py:66-82 | Once the 64-character cut bites, candidate k is candidate k/10 again |
| CoreText.SlugCanBeExhausted | backend/src/meyar/core/text.py:66-82 | For a 60-character base 999 reserved ids leave nothing free |
| CoreText.SlugIsFresh | backend/src/meyar/core/text.py:66-82 | With fewer than 999 reserved ids the id is new, 1 to 64 characters over `[a-z0-9_]` |
| CoreText.BaseKeepsTheLetters | backend/src/meyar/core/text.py:74-76 | The id's base is the folded label's letters and digits in order with one underscore per gap, cut to 60 characters, and the fixed word exactly for a label without any |
| CoreText.JoinedWordsAreTheWords | backend/src/meyar/agent/canonical_requirements.py:404-404 | Joining a proposal's words keeps the words and puts one blank between them |
| CoreText.UpperStripIsUpper | backend/src/meyar/agent/canonical_requirements.py:290-291 | A normalized level is the level without outer white space and with capitals for small letters, nothing else changed |
| TurnStore.ConversationRows.BeginTurn | backend/src/meyar/application/conversations.py:355-444 | Phase A: the early answers, the reservation, and the claim or its rollback leave exactly the specified rows |
| TurnStore.ConversationRows.ReserveTurn | backend/src/meyar/agent/turn_boundary.py:221-284 | A reservation is taken exactly when the owner is active and no live one stands, on a context of the right epoch |
| TurnStore.ConversationRows.FinishTurn | backend/src/meyar/application/conversations.py:476-523 | Phase B commits the pair, the pointers, the version and the submission together, or rolls all of it back; what the committed rows then say is `CommitPublishesTheOutcome` |
| TurnStore.ConversationRows.AppendPair | backend/src/meyar/agent/service.py:2099-2108 | The pair goes to the current transcript within its bound and the context takes the staged pointers |
| TurnStore.ConversationRows.IssueSubmission | backend/src/meyar/services/agent_submission_repo.py:47-97 | A fresh id for the session's epoch; only dead rows may be swept |
| TurnGuarantees.IssuedCanStart | backend/src/meyar/services/agent_submission_repo.py:47-97 | A submission just issued is new, and for a day its session can start a turn with it whenever the owner is active and no other turn is running |
| TurnGuarantees.SweepingCostsNothing | backend/src/meyar/services/agent_submission_repo.py:51-73 | A sweep leaves every submission that anybody could still claim |
| TurnGuarantees.TurnStartsIff | backend/src/meyar/application/conversations.py:355-444 | A turn starts if and only if the owner is active, no live reservation stands, and the submission is the session's, unexpired, for this request, of this context's epoch, and not in use |
| TurnGuarantees.StartedTurnHolds | backend/src/meyar/agent/turn_boundary.py:229-284 | A turn that starts holds the one reservation for one ttl on the transcript as it stands and the session's own context, a new one clean and of a higher epoch than all others, and its claim; nothing else changes |
| TurnGuarantees.BusySpendsTheSubmission | backend/src/meyar/application/conversations.py:388-420 | A busy conversation spends an unused submission for good, and no other |
| TurnGuarantees.GivingUpSpendsTheClaim | backend/src/meyar/agent/turn_boundary.py:386-435 | What a turn that gives up had claimed can never be claimed again |
| TurnProtocol.RunKeepsInv | backend/src/meyar/agent/turn_boundary.py:229-435 | Every interleaving of begins, gaps, expiries, take-overs, abandons, crashes, revocations and draft writes keeps the protocol's invariant |
| TurnGuarantees.TurnsAreSerializable | backend/src/meyar/agent/turn_boundary.py:345-378 | In every run the transcript is its writes applied in commit order, and each committed turn had read exactly what the writes before it produce |
| TurnGuarantees.CommitAppendsToItsSnapshot | backend/src/meyar/agent/service.py:2099-2108 | A commit appends its pair to exactly the transcript the turn was reserved on, and the version rises |
| TurnGuarantees.CommitPublishesTheOutcome | backend/src/meyar/agent/service.py:2036-2108 | A commit leaves the session pointing at the result set and clarification the turn produced and at its new draft, whose payload the last entry carries, or the old one; no other session's pointers move; the last two entries are HR's own words and what HR was shown; the submission is completed at the version that stands and the reservation is gone |
| TurnGuarantees.ReentryIffNothingMoved | backend/src/meyar/agent/turn_boundary.py:345-378 | A turn re-enters if and only if its session is live, it reserved last and still holds the reservation, its context is as it left it, and nobody has written to the transcript since; then that transcript is the one it read |
| TurnGuarantees.CommitsIff | backend/src/meyar/application/conversations.py:476-523 | A turn commits if and only if it could re-enter and its submission row is still the one it claimed, for its request, in progress |
| TurnGuarantees.GivingUpIsPrivate | backend/src/meyar/agent/turn_boundary.py:386-435 | Giving up frees a reservation only if it is the turn's own, ends that turn for every later state, keeps every other turn's readiness to commit, and leaves every row claimed by others alone |
| TurnGuarantees.RevisionStopsTurns | backend/src/meyar/application/drafts.py:94-170 | A review changes only that draft's payload, keeps it pending under its id, and no turn then in flight commits in any later state |
| TurnGuarantees.WrittenOverNeverCommits | backend/src/meyar/agent/turn_boundary.py:362-370 | A turn over whose transcript anybody has written commits at the end of no run |
| TurnGuarantees.ConfirmationTakesEffect | backend/src/meyar/application/drafts.py:309-371 | A confirmation makes a job and version that no other has, turns the draft's entries into confirmed ones and drops every pointer to it, leaves all other entries, pointers, sessions and confirmations alone, and stops every turn in flight for good |
| TurnGuarantees.ConfirmsIff | backend/src/meyar/application/drafts.py:209-371 | A draft is confirmed if and only if it is acceptable and pending in its own live session, and a refused confirmation changes nothing |
| TurnGuarantees.UncommittedTurnsAreQuiet | backend/src/meyar/application/conversations.py:524-600 | Reserving, re-entering, giving up, crashing or failing to commit changes no transcript, version, pointer or confirmation |
| TurnGuarantees.SubmissionsRunOnce | backend/src/meyar/services/agent_submission_repo.py:118-152 | In every run a submission is behind at most one appended pair, and one behind a pair never starts again |
| TurnGuarantees.OnlyTheClaimerCompletes | backend/src/meyar/application/conversations.py:489-504 | Only the turn that holds the reservation, took it last and claimed the row last can complete it |
| TurnGuarantees.OvertakenStep | backend/src/meyar/agent/turn_boundary.py:345-435 | A replaced turn can neither re-enter nor commit, and giving up leaves the newer reservation alone |
| TurnGuarantees.OvertakenForever | backend/src/meyar/agent/turn_boundary.py:345-378 | A replaced turn cannot commit at the end of any run |
| TurnGuarantees.TimelyTurnIsNeverOvertaken | backend/src/meyar/config.py:122-132 | Over any number of inference gaps, each within a bound the reservation exceeds, the turn keeps its reservation and nobody else can start |
| TurnGuarantees.UndisturbedTurnCommits | backend/src/meyar/agent/turn_boundary.py:229-378 | A turn whose gaps are timely, whose session stays live and whose conversation's drafts are left alone can commit, whatever all other turns do |
| TurnGuarantees.DraftsNeverReturn | backend/src/meyar/agent/service.py:2036-2042 | A draft id that stopped being pending is never pending nor freshly confirmed again in any run |
| TurnGuarantees.ConfirmedOnce | backend/src/meyar/application/drafts.py:209-240 | A confirmed draft replays the same job and version in every later state, and no other draft or session shares them |
| Dialogue.BoundSourceNeverRaises | backend/src/meyar/agent/dialogue.py:200-291 | Once the liveness check has passed, reading the bound source text cannot raise |
| DialogueRuns.RunKeepsInv | backend/src/meyar/services/agent_task_repo.py:181-530 | Every run of turns, ticks and foreign exchanges keeps one open question at most, intact chains and exact bindings |
| DialogueGuarantees.ResumesTheOriginalMessage | backend/src/meyar/agent/service.py:2291-2354 | Resolving a search-or-vacancy question by button, label or model, at either attempt, resumes the message that raised it, never the answer; which answer it resumes with is `OutcomeIsTheMeaning` |
| DialogueAnswers.OutcomeIsTheMeaning | backend/src/meyar/agent/service.py:2291-2364 | On a live question each outcome occurs for exactly the replies that mean it: the answer given by button, else by label, else by the model unless the message is clearly new; analysis for a vacancy source; a new task supersedes, an unclear reply asks again once and then gives up, a failed model changes nothing |
| DialogueAnswers.LiveIff | backend/src/meyar/agent/dialogue.py:212-291 | A question is live if and only if its row waits in time for this session under today's rules, its exchange is the last of the transcript, its chain of attempts is whole, and its source stands unchanged |
| DialogueAnswers.ButtonRejectedIff | backend/src/meyar/agent/service.py:2252-2262 | A posted button is rejected exactly when it is not one of the two answers to the question pointed to |
| DialogueAnswers.DeadQuestionExpires | backend/src/meyar/agent/service.py:2263-2289 | A question no longer live is expired for the reason that ended it, whatever the reply |
| DialogueAnswers.CommitRecordsTheEnding | backend/src/meyar/services/agent_task_repo.py:368-530 | The committed turn records the question's ending: status, reason, successor and task status as the outcome calls for |
| DialogueAnswers.CommitAsksExactly | backend/src/meyar/agent/dialogue.py:406-462 | A committed turn leaves a question exactly when a first one is asked on a new task or an unclear first answer is retried, with the kind, source, attempt and deadline that follow |
| DialogueGuarantees.NewQuestionIsLive | backend/src/meyar/agent/dialogue.py:406-462 | The question a committed turn leaves, first or second, is live on the resulting transcript until it expires |
| DialogueGuarantees.FurtherExchangeEndsQuestion | backend/src/meyar/agent/dialogue.py:212-291 | After any further exchange, of this session or another, a question is live in no later state of any run |
| DialogueGuarantees.CommittedTurnRetires | backend/src/meyar/agent/service.py:2244-2364 | Every committed turn that began with a question pointed to retires that question |
| DialogueGuarantees.UnclearAnswersRunOut | backend/src/meyar/agent/dialogue.py:438-462 | An unclear answer ends the question or leaves strictly fewer attempts with the same task and source; a third attempt never exists |
| DialogueGuarantees.AtMostOneOpen | backend/alembic/versions/b88a2c4d6e10_agent_tasks_and_clarifications.py:135-182 | In every reachable state the pointer's question is open and no other is, and no attempt exceeds two |
| DialogueGuarantees.AnswerLostIffExpired | backend/src/meyar/services/agent_task_repo.py:181-245 | A resolved answer is lost at commit exactly when the question it relied on expired meanwhile |
| Segmentation.Trim | backend/src/meyar/agent/semantic_requirements.py:460-468 | Both cursors stop at the first character that stays, inside the range given |
| Segmentation.CutPieces | backend/src/meyar/agent/semantic_requirements.py:471-485 | Walking the cuts gives exactly the trimmed non-empty pieces between them |
| Segmentation.SplitUnits | backend/src/meyar/agent/semantic_requirements.py:539-718 | The nested loops give each clause's units, whole or cut at its connector, with clause groups numbered across the text |
| Segmentation.UnitsRise | backend/src/meyar/agent/semantic_requirements.py:539-718 | All units lie in the text, in order, without overlap |
| ClauseGroups.NumbersAreClauses | backend/src/meyar/agent/semantic_requirements.py:539-718 | A span is numbered exactly when it lies in a coordinated clause, and two numbered spans share a number exactly when they lie in the same one |
| ClauseGroups.HeadingsStayOut | backend/src/meyar/agent/semantic_requirements.py:614-637 | Every unit is a whole contrasting sentence or lies in its clause behind the vacancy header, the search preamble and the role heading |
| MaterialSpans.WithoutControlSpans | backend/src/meyar/agent/semantic_requirements.py:1325-1341 | The loops subtract every control from every segment |
| MaterialSpans.UncontrolledIsClear | backend/src/meyar/agent/semantic_requirements.py:1325-1341 | What survives is in order, inside what there was, and touches no control |
| MaterialSpans.MaterialSpansAreDisjoint | backend/src/meyar/agent/semantic_requirements.py:1378-1407 | The spans of an analysis are non-empty slices of the text, strictly increasing, pairwise disjoint and clear of every control |
| MaterialSpans.AnalyzeHrText | backend/src/meyar/agent/semantic_requirements.py:1344-1605 | The analysis never fails: the skip of a seen range is never taken and both reconciliation errors are unreachable; every span says what was read in its slice and is in the state the reading calls for, in any order of looking |
| MaterialSpans.AnalysisIsADraftSource | backend/src/meyar/agent/semantic_requirements.py:1344-1605 | An analysed message within its bounds is the kind of source the draft results assume |
| Coverage.EveryCharacterIsAccountedFor | backend/src/meyar/agent/semantic_requirements.py:1378-1407 | Every character of the text is in a span of the analysis, in result-count wording, in a unit judged not to be a requirement, or in a separator, heading or trimmed edge |
| Coverage.UnitsCoverTheText | backend/src/meyar/agent/semantic_requirements.py:460-718 | Every character is in a unit, or in a boundary, comma, connector, heading or trimmed edge |
| AnalyzedRoles.AnalyzeWithRoles | backend/src/meyar/agent/semantic_requirements.py:1344-1605 | The whole analysis: the spans just analysed fit the register, which comes out sorted and disjoint, and no check of either fails |
| AnalyzedRoles.RequirementsKeepOffControls | backend/src/meyar/agent/semantic_requirements.py:1213-1297 | In every analysis, however the controls overlap, no claim of a requirement overlaps any of them |
| RoleRegistry.BuildRoleRegistry | backend/src/meyar/agent/semantic_requirements.py:1181-1322 | The register is the accepted claims, sorted and pairwise disjoint; the overlap RuntimeError is unreachable |
| RoleRegistry.EveryWordIsClaimed | backend/src/meyar/agent/semantic_requirements.py:1299-1316 | Every word of the text meets some assignment |
| RegisteredRoles.RolesAreWhatTheyMean | backend/src/meyar/agent/semantic_requirements.py:1213-1316 | Every registered role is what a span's reading, a word of it, or the result-count wording pointed at |
| RegisteredRoles.OccurrenceKeepsItsRole | backend/src/meyar/agent/semantic_requirements.py:1247-1270 | A duration, proficiency, modality or subject that a span's reading points at is registered under that role with the span's authority, unless something earlier has its text |
| RoleRegistry.ControlsComeFirst | backend/src/meyar/agent/semantic_requirements.py:1190-1219 | A control that overlaps no earlier one is registered, and nothing else owns any part of it |
| RoleRegistry.RegisteredApart | backend/src/meyar/agent/semantic_requirements.py:1190-1211 | Registering keeps assignments disjoint whatever is offered |
| RoleRegistry.SortedIsPermutation | backend/src/meyar/agent/semantic_requirements.py:1318-1322 | Sorting the assignments loses none and invents none |
| AuthorityMigration.Tables.Upgrade | backend/alembic/versions/b7e3c9d41f28_durable_agent_conversation_authority.py:84-253 | The upgrade's statements produce the specified new tables exactly when sessions are unshared, owners are known, epochs positive and every result set has its conversation, and otherwise leave the old tables as they were |
| AuthorityMigration.EpochZeroAborts | backend/alembic/versions/b7e3c9d41f28_durable_agent_conversation_authority.py:84-253 | Old tables, admissible in every other way, whose one row is at epoch 0: the upgrade is refused for it |
| AuthorityMigration.Tables.Downgrade | backend/alembic/versions/b7e3c9d41f28_durable_agent_conversation_authority.py:256-405 | The downgrade checks everything before its first change, then produces the specified old tables |
| AuthorityMigration.UpgradedIsNew | backend/alembic/versions/b7e3c9d41f28_durable_agent_conversation_authority.py:84-253 | Upgraded tables meet every constraint of the new layout and carry no draft authority over |
| AuthorityMigration.UpgradeMovesEverything | backend/alembic/versions/b7e3c9d41f28_durable_agent_conversation_authority.py:84-253 | After an upgrade every conversation has the user and membership behind its old session, in its own tenant, the title its transcript calls for, and one context with its session, epoch, result set and times; every result set is bound to its own session's conversation; nothing else changes |
| AuthorityMigration.UpgradeThenDowngrade | backend/alembic/versions/b7e3c9d41f28_durable_agent_conversation_authority.py:256-388 | Going up and down restores every old row exactly when no transcript carries a draft payload, and otherwise is refused for that reason |
| AuthorityMigration.DowngradeThenUpgrade | backend/alembic/versions/b7e3c9d41f28_durable_agent_conversation_authority.py:256-388 | Going down and up always succeeds and restores owners, contexts and result-set bindings, but for titles, context ids and timestamps |

## Left out

- The contents of regular expressions, vocabularies, aliases and Unicode folding: they are arbitrary functions here, since no structural property depends on them.
- Model and embedding calls, prompts, HTTP, SQL and session plumbing: a model call is a gap between transactions, a transaction one step.
- Title attribution, the result-count disclosure fields, and the ungrounded and rejected proposal counters of the draft: they carry no authority over criteria.
- Length limits of draft texts other than the 500 characters of a review or unsupported item's own text, among them 200 for a subject, and the 500-character bound on the stored follow-up message.
- The draft for more than 64 spans, which scores nothing.
- Shared modality of coordinated clauses: which words govern a clause is an arbitrary function; the split itself is modelled.
- Draft tasks waiting for confirmation and the audit trail of clarifications: bookkeeping beside the question's own row.
- The capability planner, search, evaluation, ranking and grounded answers.
- The comparison of a confirmation form with the pending draft, the search for duplicate jobs and the provenance builder's verdict are one Boolean in the turn protocol; the verdict itself is the first part of the model.
- Users, memberships and roles of a principal are one flag per owner and one set of live sessions in the turn protocol.
- HTTP dispositions and the auditing of turns that did not commit.
- TurnGuarantees.UndisturbedTurnCommits: speaks of a turn that has its answer; that a model call returns one is outside the model.
- RoleRegistry.BuildRoleRegistry: the roles inside a span come in the code's order, but where in the span each is found is an arbitrary function.
- DraftEditing: an `assert` of the conflict choice that a caller can only meet with a malformed item is an error result.
- Draft edits and dialogue rules are functions on values, as in the source, where they return changed copies.
