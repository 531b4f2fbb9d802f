# Peer-recognition app: a verified Dafny model of its core

The peer-recognition app runs rounds called chapters. The stored document calls them "epochs". Each chapter moves through four phases:

- setup;
- contribution: participants write notes about each other;
- distribution: each participant hands out up to 100 points across the notes about other people;
- finished: results are shown and can be exported.

This project models the logic at the centre of the app:

- **The document store** (`ChapterStore`).
  - It is one `Database` object with five row lists: chapters, participants, contributions, comments and distributions.
  - It has the operations that change those lists in place: create, update status, delete with cascade, add and remove participants, contribution and comment rows, and the replace-all point ledger.
  - The file-backed store (`lib/database.ts`) and the hosted key-value store (`lib/redis-database.ts`) perform the same operations on the same document, so one class models both.
- **The phase table of a manual status change** (`ChapterStore.ApplyStatus`). It says which of the four stamped times are set, kept or cleared, depending on the previous phase.
- **The automatic sweep** (`AutoTransition`). It moves every chapter whose running phase has reached its end forward by one phase. It writes the document back only when something moved.
- **The countdown arithmetic** (`TimerUtils`):
  - the remaining time split into hours, minutes and seconds;
  - its display string;
  - the end of the running phase.
- **The distributions endpoint** (`DistributionsApi`). It checks the 100-point budget on POST and filters by chapter and participant on GET.
- **The allocation editor** (`DistributionView`):
  - which contributions a participant may give points to, grouped by subject;
  - the clamp-and-commit rule that never lets an allocation exceed 100;
  - the points remaining;
  - loading saved rows into the editor.
- **The results projection** (`ResultsDashboard`):
  - points per contribution and per participant;
  - the stable ranking by total;
  - the summary statistics.
- **The CSV export** (`CsvExport`):
  - the document section by section, with quote escaping;
  - the received and given tallies per participant;
  - the newline join.
- **The skill summary** (`AiSummary`):
  - word-start keyword matching over the lower-cased descriptions;
  - the detected skills in table order, without repeats, at most six;
  - the endpoint's input checks.

Shared modules:

- `Model` holds the entities.
- `Seqs` holds `filter`, `findIndex` and `splice`.
- `Text` holds lower-casing, trimming, decimal rendering and `join`.

Conventions:

- Timestamps are integer milliseconds.
- The current instant is a parameter `now`.
- Fresh identifiers are parameters.

Four behaviours of the code are easy to overlook. The model follows the code, and lemmas show each one on concrete inputs:

- **The sweep is not idempotent.** One might expect a second sweep at the same instant to change nothing. But a contribution chapter whose two deadlines have both passed only reaches distribution in the first sweep, and is finished by the second (`AutoTransition.SweepNotIdempotent`). Repeated sweeps do settle after two (`AutoTransition.SweepSettlesAfterTwo`).
- **Only the total of an allocation is checked.** Nothing checks that each point value is a non-negative integer: the endpoint checks only the total, so a negative entry can make room for one above 100 (`DistributionsApi.NegativeEntriesAccepted`).
- **The duplicate-name check sees the untrimmed input** (`ChapterStore.PaddedDuplicateAdmitted`).
- **A dangling subject is exported as "undefined".** In the CSV, a distribution whose target contribution exists but whose subject is gone is labelled with the text `undefined`, not `Unknown` (`CsvExport.DanglingSubjectLabelledUndefined`).

## Model

| member | source | states |
|---|---|---|
| ChapterStore.Database.constructor | lib/database.ts:61-67 | A fresh document has five empty lists. |
| ChapterStore.Database.CreateChapter | lib/database.ts:126-159 | Appends exactly one chapter. It is in setup with no start, end or phase-end times, its name list is the given names, and unset or zero legacy durations become one hour and half an hour. One Participant per name is appended, in order, carrying the new chapter's id. Nothing else changes. The same code is at lib/redis-database.ts:158-197. |
| ChapterStore.Database.GetChapter | lib/database.ts:161-164 | None exactly when no chapter has the id; otherwise the first stored chapter with that id, as `find` returns it. |
| ChapterStore.Database.GetActiveChapter | lib/database.ts:166-169 | None exactly when every chapter is finished; otherwise the first chapter, in stored order, that is not finished. |
| ChapterStore.ContributionEndFor | lib/database.ts:222-227 | The contribution end: the deadline when set, else now plus the legacy duration (an unset or zero duration means one hour). |
| ChapterStore.DistributionEndFor | lib/database.ts:237-242 | The distribution end: the deadline when set, else now plus the legacy duration (an unset or zero duration means half an hour). |
| ChapterStore.ApplyStatus | lib/database.ts:202-245 | The new status is set and the settings are kept. Setup clears all four times. Contribution stamps the start when coming from setup or when there was none. It clears the end and the distribution end only when coming from distribution or finished, and stamps the contribution end. Distribution stamps the start only if unset, clears the end only when coming from finished, stamps the distribution end and keeps the contribution end. Finished changes only the status and the end. |
| ChapterStore.ApplyStatusIdempotent | lib/database.ts:202-245 | Repeating a manual move at the same instant changes nothing further. |
| ChapterStore.SetupForgetsHistory | lib/database.ts:206-211 | A move to setup leaves nothing of the chapter's timing history: two chapters with the same settings become equal. |
| ChapterStore.Database.UpdateChapterStatus | lib/database.ts:195-249 | The branch-by-branch field assignments equal `ApplyStatus` on the first chapter with the id. An unknown id changes nothing, and no other list changes. The same code is at lib/redis-database.ts:225-272. |
| ChapterStore.Database.GetParticipants | lib/database.ts:251-254 | Exactly the stored participants of the chapter. |
| ChapterStore.WithoutKey | lib/database.ts:265-268 | The rows a cascading filter keeps are exactly the rows whose key differs. |
| ChapterStore.WithKey | lib/database.ts:251-254 | The rows selected by key are exactly the rows with that key. |
| ChapterStore.WithoutKeyLeavesNone | lib/database.ts:265-268 | After a cascading delete of a key, no row carries that key. |
| ChapterStore.WithoutKeyKeepsOtherKeys | lib/database.ts:265-268 | A cascading delete of one key leaves the rows of every other key exactly as they were, in order. |
| ChapterStore.Database.DeleteChapter | lib/database.ts:256-275 | Returns false and changes nothing for an unknown id. Otherwise it splices out the first chapter with the id and drops every participant, contribution, comment and distribution of that chapter, keeping the other rows. The same code is at lib/redis-database.ts:274-290. |
| ChapterStore.Database.GetParticipant | lib/database.ts:280-283 | None exactly when no participant has the id; otherwise the first stored participant with that id. |
| ChapterStore.PaddedDuplicateAdmitted | lib/database.ts:295-305 | " bob " passes the duplicate check against "Bob" although its trimmed, lower-cased form equals the stored name. |
| ChapterStore.Database.AddParticipantToChapter | lib/database.ts:285-319 | Gives a participant exactly when the chapter exists and no participant of it has the untrimmed name, ignoring case. On failure nothing changes. On success one Participant with the trimmed name is appended, and the trimmed name joins the chapter's name list unless already there. The same code is at lib/redis-database.ts:303-332. |
| ChapterStore.ContributionsWithout | lib/database.ts:349-351 | Exactly the contributions neither about nor by the participant. |
| ChapterStore.RemoveName | lib/database.ts:343-346 | `indexOf` and `splice`: when the name is present, the list loses the first position holding it and keeps every other name in order; otherwise nothing changes. |
| ChapterStore.Database.RemoveParticipantFromChapter | lib/database.ts:321-357 | Returns false and changes nothing when the participant or their chapter is missing. Otherwise it splices out the participant row, and the chapter's name list becomes `RemoveName` of it: the first equal name goes and the rest keep their order. It drops every contribution about or by them, every comment by them and every distribution from them. Distributions from others stay. The same code is at lib/redis-database.ts:334-365. |
| ChapterStore.Database.CreateContribution | lib/database.ts:359-376 | Always appends exactly one new row, even for an existing (author, subject) pair. Nothing else changes. |
| ChapterStore.Database.UpdateContribution | lib/database.ts:378-390 | False for an unknown id. Otherwise only the first such row's description and timestamp change. |
| ChapterStore.Database.DeleteContribution | lib/database.ts:392-411 | False and no change for an unknown id. Otherwise the row is spliced out with every comment on it and every distribution to it; chapters and participants are untouched. |
| ChapterStore.Database.GetContributions | lib/database.ts:413-416 | Exactly the stored contributions of the chapter. |
| ChapterStore.Database.CreateComment | lib/database.ts:418-434 | Appends exactly one comment; nothing else changes. |
| ChapterStore.Database.GetComments | lib/database.ts:436-439 | Exactly the stored comments on the contribution. |
| ChapterStore.NewParticipants | lib/database.ts:149-153 | One Participant per name, in order, with the given ids and the chapter's id. |
| ChapterStore.NewRows | lib/database.ts:448-455 | One Distribution per submitted entry, in order, from the sender, in the chapter. |
| ChapterStore.ReplaceAllocationOwnRows | lib/database.ts:444-457 | After the replace, the sender's rows in the chapter are exactly the new rows, in order. |
| ChapterStore.ReplaceAllocationOtherRows | lib/database.ts:444-446 | After the replace, the rows of every other (participant, chapter) pair are unchanged. |
| ChapterStore.NewRowsSum | lib/database.ts:448-455 | The new rows total the submitted entries' points. |
| ChapterStore.ReplaceAllocationTotal | lib/database.ts:441-459 | After the replace, the sender's total in the chapter is the submission's total: earlier rows never add to it. |
| ChapterStore.Database.DistributePoints | lib/database.ts:441-459 | Replace-all. The pair's rows become exactly the submission, in order, and total its points. Every other pair's rows are unchanged. Only the ledger changes. The same code is at lib/redis-database.ts:446-464. |
| ChapterStore.Database.GetDistributions | lib/database.ts:461-464 | Exactly the stored rows of the chapter. |
| ChapterStore.Database.GetParticipantDistributions | lib/database.ts:466-469 | Exactly the participant's rows in the chapter, that is, their allocation. |
| ChapterStore.AllocationOf | lib/database.ts:466-469 | Definition of one sender's rows in one chapter, in stored order; its properties are stated by `ReplaceAllocationOwnRows` and `ReplaceAllocationTotal`. |
| ChapterStore.ReplaceAllocation | lib/database.ts:441-459 | Definition of the replace-all: the other pairs' rows, then the new rows; its properties are stated by `ReplaceAllocationOwnRows`, `ReplaceAllocationOtherRows` and `ReplaceAllocationTotal`. |
| Model.DurationOr | lib/database.ts:226 | `d \|\| fallback`: an absent or zero duration falls back, any other value is kept. |
| Model.PreferDeadline | lib/timer-utils.ts:56-60 | The deadline when set, else the stamped end time. |
| Model.SumPointsAppend | components/ResultsDashboard.tsx:87 | The total of a concatenation is the sum of the totals. |
| Model.SumPointsPartition | lib/csv-export.ts:72 | The rows a filter keeps and the rows it drops add up to the whole total. |
| AutoTransition.EffectiveEnd | pages/api/epochs/auto-transition.ts:18-20 | In a timed phase, that phase's deadline, else its stamped end. Nothing for setup or finished. |
| AutoTransition.Due | pages/api/epochs/auto-transition.ts:18-22 | Definition of a chapter whose running phase has reached its end; `DueIffCountdownExpired` ties it to the countdown. |
| AutoTransition.SweepAll | pages/api/epochs/auto-transition.ts:13-46 | Definition of the sweep over the list, chapter by chapter; `Sweep` computes it and `SweepSettlesAfterTwo` states how it repeats. |
| AutoTransition.SweepOne | pages/api/epochs/auto-transition.ts:16-45 | A chapter that is not due is unchanged. A due chapter moves to the next phase. A due contribution chapter becomes what a manual move to distribution would make, but keeps its start time. A due distribution chapter becomes what a manual finish would make. |
| AutoTransition.Sweep | pages/api/epochs/auto-transition.ts:13-46 | Each chapter becomes its one-chapter sweep. `updated` holds exactly when some chapter was due, which is exactly when the list changed. |
| AutoTransition.HandleAutoTransition | pages/api/epochs/auto-transition.ts:4-55 | 405 for anything but POST, with nothing changed. Otherwise 200, with `updated` exactly when some chapter was due, and the chapters swept. Written back only when updated. No other list changes. |
| AutoTransition.SweepOneMovesForwardOnce | pages/api/epochs/auto-transition.ts:15-45 | Setup and finished chapters are untouched. A touched chapter moves forward by exactly one phase and never back. |
| AutoTransition.DueIffCountdownExpired | pages/api/epochs/auto-transition.ts:18-22 | A chapter is due exactly when its countdown shows an end that has expired. |
| AutoTransition.SweepNotIdempotent | pages/api/epochs/auto-transition.ts:16-45 | A chapter with both deadlines passed needs two sweeps at the same instant to finish. |
| AutoTransition.SweepSettlesAfterTwo | pages/api/epochs/auto-transition.ts:16-45 | A second sweep at the same instant can only finish a chapter, and a third changes nothing. |
| TimerUtils.GetRemainingTime | lib/timer-utils.ts:1-33 | Expired, with all zeros, exactly when the end is reached. Otherwise the total is end minus now, minutes and seconds are below 60, and hours, minutes and seconds add up to the total to within one second, from below. |
| TimerUtils.FormatTimeRemainingShape | lib/timer-utils.ts:35-49 | "Time expired" exactly when the end is reached. Any other display ends in the seconds unit. Under a minute it is the seconds alone. |
| TimerUtils.FormatTimeRemainingUnits | lib/timer-utils.ts:42-45 | From one hour on, the display is hours, minutes and seconds (`Hh Mm Ss`). From one minute up to an hour it is minutes and seconds (`Mm Ss`). The units are those of `GetRemainingTime`. |
| TimerUtils.FormatTimeRemaining | lib/timer-utils.ts:35-49 | Definition of the display; its four cases are stated by `FormatTimeRemainingShape` and `FormatTimeRemainingUnits`. |
| TimerUtils.Countdown | lib/timer-utils.ts:38-48 | Definition of the display of one split; see `FormatTimeRemainingShape`. |
| TimerUtils.CountdownUnits | lib/timer-utils.ts:42-47 | Definition of the units ahead of the trailing `s`; see `FormatTimeRemainingUnits`. |
| TimerUtils.GetPhaseEndTime | lib/timer-utils.ts:51-71 | Nothing for a missing chapter or for setup and finished. In a timed phase, its deadline, else its stamped end, else nothing. |
| TimerUtils.PhaseEndAfterManualMove | lib/timer-utils.ts:51-71 | After a manual move into a timed phase the countdown has an end: the one the move stamped. There is none in setup or finished. |
| DistributionsApi.ValidatePost | pages/api/distributions/index.ts:8-15 | Missing fields exactly when an id is missing or falsy or the allocation is not an array. Otherwise over budget exactly when the total exceeds 100, else accepted. |
| DistributionsApi.ListRows | pages/api/distributions/index.ts:30-34 | With a truthy participant id, that participant's allocation in the chapter; otherwise every row of the chapter, and only those. A repeated query key (an array) matches no row. |
| DistributionsApi.Handle | pages/api/distributions/index.ts:4-42 | A failed POST answers 400 and leaves the ledger alone. An accepted POST replaces the sender's allocation once and answers 200. A GET whose chapter key is absent or empty answers 400, otherwise 200 with the listing, arrays included. Other methods answer 405. Only the ledger can change. |
| DistributionsApi.AcceptedPostWithinBudget | pages/api/distributions/index.ts:12-19 | After an accepted POST, the sender's rows read back by GET are the submission, and they total at most 100. |
| DistributionsApi.NegativeEntriesAccepted | pages/api/distributions/index.ts:12-15 | The entries -50 and 120 pass the budget check. |
| DistributionView.Lookup | components/DistributionView.tsx:114-130 | Absent exactly when no entry has the key; otherwise a stored entry's value. |
| DistributionView.LookupUnique | components/DistributionView.tsx:114-130 | With distinct keys, the value read is the value of the one entry with that key. |
| DistributionView.Put | components/DistributionView.tsx:122 | Assigning keeps keys distinct, stores the new value and keeps every other key's entry. |
| DistributionView.Delete | components/DistributionView.tsx:120 | `delete` removes the key and keeps exactly the other entries. |
| DistributionView.RemainingPoints | components/DistributionView.tsx:106-112 | The remainder plus the total is 100; it is non-negative exactly when the total is within budget. |
| DistributionView.Edited | components/DistributionView.tsx:115-123 | A value of zero or below removes the entry, a positive value is stored, and every other entry is kept. |
| DistributionView.UpdateDistribution | components/DistributionView.tsx:114-130 | The edit is committed when its total is at most 100; otherwise the allocation is unchanged. |
| DistributionView.UpdateKeepsBudget | components/DistributionView.tsx:125-129 | An allocation within budget stays within budget, with distinct keys, after any update. |
| DistributionView.UpdateLookup | components/DistributionView.tsx:114-130 | After a committed update, the edited key reads the clamped value or nothing, and every other key reads as before. |
| DistributionView.PutLookup | components/DistributionView.tsx:91 | Writing a key into the record makes it read the new value; every other key keeps its value. |
| DistributionView.LoadStep | components/DistributionView.tsx:90-92 | Each turn of the load loop keeps every key reading the last points written for it so far. |
| DistributionView.LoadExisting | components/DistributionView.tsx:89-93 | Loading saved rows gives distinct keys, and each key reads the points of the last row targeting it. |
| DistributionView.GroupsCount | components/DistributionView.tsx:69-83 | Every contribution not about the participant is a candidate exactly once, and none about them is. |
| DistributionView.GroupsFaithfulOf | components/DistributionView.tsx:69-77 | Each group holds exactly its subject's contributions in arrival order, subjects are distinct and never the participant, and every other subject has a group. |
| DistributionView.GroupsOrderedOf | components/DistributionView.tsx:69-83 | The groups come in the order their subjects first appear among the contributions, as a `Map` keeps insertion order. |
| DistributionView.NewGroupKeepsOrdered | components/DistributionView.tsx:72-74 | A subject not seen before opens a group at the end, after every earlier subject. |
| DistributionView.GroupsOf | components/DistributionView.tsx:69-77 | Definition of the `contributionsByPerson` map as a list of groups; see `GroupsFaithfulOf`, `GroupsOrderedOf` and `GroupsCount`. |
| DistributionView.EligibleContributions | components/DistributionView.tsx:69-83 | The candidate list is the groups flattened. It is a permutation of the contributions not about the participant, and none is about them. The order of the groups is stated by `GroupsOrderedOf`. |
| ResultsDashboard.ContributionResults | components/ResultsDashboard.tsx:82-96 | One result per contribution, in order, carrying the points aimed at it. |
| ResultsDashboard.ScoreContributions | components/ResultsDashboard.tsx:82-97 | The inner loop computes exactly those results. |
| ResultsDashboard.Unranked | components/ResultsDashboard.tsx:75-107 | One result per participant, in input order. |
| ResultsDashboard.ResultFor | components/ResultsDashboard.tsx:75-106 | Definition of one participant's result; see `ResultForContents`. |
| ResultsDashboard.ResultForContents | components/ResultsDashboard.tsx:75-106 | A participant's result lists exactly the contributions about them, in arrival order, each with the points aimed at it, and its total is the sum of those points. |
| ResultsDashboard.TotalIsIncoming | components/ResultsDashboard.tsx:82-99 | With distinct contribution ids, a participant's total is the sum of every distribution aimed at a contribution about them. |
| ResultsDashboard.AimedAtSnoc | components/ResultsDashboard.tsx:83-87 | Adding one new target id adds exactly that contribution's received points. |
| ResultsDashboard.SumResultsIsIncoming | components/ResultsDashboard.tsx:82-99 | With distinct ids, the summed contribution points equal the total of the rows aimed at them. |
| ResultsDashboard.InsertRanked | components/ResultsDashboard.tsx:109 | Inserting into a list ordered by total keeps it ordered. |
| ResultsDashboard.InsertStable | components/ResultsDashboard.tsx:109 | An inserted result goes ahead of every result it ties with. |
| ResultsDashboard.Insert | components/ResultsDashboard.tsx:109 | One element more, as a multiset; its order is stated by `InsertRanked` and `InsertStable`. |
| ResultsDashboard.Rank | components/ResultsDashboard.tsx:109 | Definition of the stable descending sort by insertion; see `RankCorrect`. |
| ResultsDashboard.RankCorrect | components/ResultsDashboard.tsx:109 | The ranking is ordered by total, largest first, is a permutation of its input, and keeps input order among equal totals. |
| ResultsDashboard.FetchResults | components/ResultsDashboard.tsx:73-110 | The results are the ranking of the per-participant results. They are ordered by total, are a permutation of the unranked results, and number one per participant. |
| ResultsDashboard.AveragePoints | components/ResultsDashboard.tsx:355 | No average when there are no results. Otherwise the nearest integer to the grand total over the count, halves rounded up. |
| ResultsDashboard.RoundedMean | components/ResultsDashboard.tsx:355 | `Math.round(t / n)` is the integer within half of t/n, halves rounded up. |
| ResultsDashboard.SummaryUnchangedByRank | components/ResultsDashboard.tsx:337-355 | Ranking changes neither the grand total, the participant count, the contribution count nor the average. |
| ResultsDashboard.GrandTotal | components/ResultsDashboard.tsx:337 | Definition of the sum of all totals; see `SummaryUnchangedByRank`. |
| ResultsDashboard.ContributionCount | components/ResultsDashboard.tsx:349 | Definition of the number of contributions over all results; see `SummaryUnchangedByRank`. |
| CsvExport.EscapeQuotes | lib/csv-export.ts:39 | Escaping never shortens the text. |
| CsvExport.EscapeRoundTrip | lib/csv-export.ts:39 | Reading an escaped field back, with each doubled quote read as one quote, gives the original text. |
| CsvExport.EscapedQuotesPaired | lib/csv-export.ts:61 | In an escaped field every quote has a quote beside it, so no quote can end the field early. |
| CsvExport.NameOrUnknown | lib/csv-export.ts:37-38 | "Unknown" when no participant has the id. Otherwise the first participant with the id is shown by name, or as "Unknown" when the name is empty. Never empty. |
| CsvExport.ToParticipantLabel | lib/csv-export.ts:49-50 | "Unknown" when no contribution has the target id. Otherwise, for the first contribution with it: "undefined" when no participant has its subject id, else the first such participant's name as is. |
| CsvExport.DanglingSubjectLabelledUndefined | lib/csv-export.ts:50 | A target contribution whose subject is missing is labelled "undefined". |
| CsvExport.TargetSubject | lib/csv-export.ts:89-90 | None exactly when no contribution has the distribution's target id; otherwise the subject of the first contribution with it. |
| CsvExport.PointsSummary | lib/csv-export.ts:80-102 | Every participant has an entry. Every entry holds the received and given totals of its key. A key without an entry has received and given nothing. |
| CsvExport.AddReceived | lib/csv-export.ts:88-95 | The received loop leaves each entry holding the points aimed at contributions about its key. |
| CsvExport.AddGiven | lib/csv-export.ts:98-102 | The given loop adds to each entry the points its key sent. |
| CsvExport.MissingTargetCountsForNobody | lib/csv-export.ts:89-94 | A row whose target contribution is missing adds to nobody's received total, but still to its sender's given total. |
| CsvExport.ReceivedIsFilteredTotal | lib/csv-export.ts:88-95 | Received points are the total of the rows whose target contribution is about the participant. |
| CsvExport.GivenIsFilteredTotal | lib/csv-export.ts:98-102 | Given points are the total of the rows the participant sent. |
| CsvExport.Rendered | lib/csv-export.ts:28-30 | One row per item, row i being item i rendered. |
| CsvExport.PushRendered | lib/csv-export.ts:28-30 | A `forEach` push loop appends exactly the rendered rows, in order. |
| CsvExport.ParticipantRows | lib/csv-export.ts:28-30 | One row per participant. |
| CsvExport.ContributionRows | lib/csv-export.ts:36-41 | One row per contribution. |
| CsvExport.DistributionRows | lib/csv-export.ts:47-52 | One row per distribution. |
| CsvExport.CommentRows | lib/csv-export.ts:59-63 | One row per comment. |
| CsvExport.SummaryRows | lib/csv-export.ts:105-108 | One row per participant. |
| CsvExport.PushParticipantsSection | lib/csv-export.ts:26-31 | Appends the heading, the column line, the participant rows and a blank line. |
| CsvExport.PushContributionsSection | lib/csv-export.ts:34-42 | Appends the heading, the column line, the contribution rows and a blank line. |
| CsvExport.PushDistributionsSection | lib/csv-export.ts:45-53 | Appends the heading, the column line, the distribution rows and a blank line. |
| CsvExport.PushCommentsSection | lib/csv-export.ts:56-65 | Appends the comments section only when there is a comment. |
| CsvExport.PushSummaryRows | lib/csv-export.ts:105-108 | Reading tallies from the map prints each participant's true received and given totals, in input order. |
| CsvExport.GenerateChapterCsv | lib/csv-export.ts:14-111 | The output is the sections, row by row, joined by newlines. |
| CsvExport.CsvRows | lib/csv-export.ts:14-108 | Definition of the pushed rows, section by section; see `GenerateChapterCsv`, `CommentsSectionIffComments` and `SummaryContents`. |
| CsvExport.DataRowsQuoted | lib/csv-export.ts:28-62 | Every participant, contribution, distribution and comment row opens with a quote. |
| CsvExport.SummaryRowsQuoted | lib/csv-export.ts:105-108 | Every points-summary row opens with a quote. |
| CsvExport.CommentsSectionIffComments | lib/csv-export.ts:56-65 | The COMMENTS heading appears in the export exactly when there is a comment. |
| CsvExport.SummaryContents | lib/csv-export.ts:68-108 | The summary reports the sum of all distributed points. The export closes with one row per participant, in input order, with their received and given totals. |
| CsvExport.NoTrailingNewline | lib/csv-export.ts:110 | The output is never empty and never ends with a newline. |
| AiSummary.KeywordNeedsWordStart | pages/api/ai-summary.ts:69-72 | "lead" matches in "leaders" but not in "misleading". |
| AiSummary.DetectSkills | pages/api/ai-summary.ts:65-77 | The loop pushes exactly the detected skills, category by category in table order. |
| AiSummary.DetectedMembership | pages/api/ai-summary.ts:68-77 | A skill is detected exactly when some category listing it has a keyword at a word start. |
| AiSummary.Dedup | pages/api/ai-summary.ts:80 | No repeats, the same elements, never longer. |
| AiSummary.DedupFirstOccurrenceOrder | pages/api/ai-summary.ts:80 | `[...new Set]` lists each element in the order of its first occurrence. |
| AiSummary.DedupOfDistinct | pages/api/ai-summary.ts:80 | Removing repeats from a list without repeats changes nothing. |
| AiSummary.DetectedDistinct | pages/api/ai-summary.ts:32-77 | With categories whose skills are disjoint, detection never repeats a skill. |
| AiSummary.DedupNoOpForDisjointCategories | pages/api/ai-summary.ts:80 | With disjoint categories the repeat removal changes nothing. |
| AiSummary.SkillDetectionDisjoint | pages/api/ai-summary.ts:32-63 | The 25-row table names each skill once. |
| AiSummary.SkillNamesDistinct | pages/api/ai-summary.ts:32-63 | No skill name appears twice in the table. |
| AiSummary.DetectedBeforeName | pages/api/ai-summary.ts:68-77 | Skills detected in the rows before row n all come before name n. |
| AiSummary.NamedCategoriesDisjoint | pages/api/ai-summary.ts:32-63 | Categories that each list one skill, with distinct names, are disjoint. |
| AiSummary.DedupNoOpOnTable | pages/api/ai-summary.ts:80 | On the table, the repeat removal changes nothing. |
| AiSummary.TopSkills | pages/api/ai-summary.ts:80-88 | At most six skills, none repeated. |
| AiSummary.TopSkillsFirstSix | pages/api/ai-summary.ts:80-88 | `slice(0, 6)`: as many skills as were found, up to six. They are listed in the order they were first detected. A detected skill is left out only when six skills detected before it are listed. |
| AiSummary.DetectedInNameOrder | pages/api/ai-summary.ts:68-77 | Over categories with one distinct skill each, detection lists skills in category order. |
| AiSummary.TopSkillsInNameOrder | pages/api/ai-summary.ts:68-88 | Over such categories, the listed skills follow category order. |
| AiSummary.TopSkillsInTableOrder | pages/api/ai-summary.ts:32-88 | Over the detection table, the listed skills follow table order. |
| AiSummary.TopSkillsAreDetected | pages/api/ai-summary.ts:68-88 | Every listed skill belongs to a category with a matching keyword. |
| AiSummary.FallbackIffNothingMatched | pages/api/ai-summary.ts:83-85 | Nothing is listed exactly when no category with a skill has a matching keyword. |
| AiSummary.GenerateSkillsList | pages/api/ai-summary.ts:28-92 | On the lower-cased text: the fallback message when no skill is found, else the top skills joined by ", ". The name plays no part. |
| AiSummary.HandleAiSummary | pages/api/ai-summary.ts:3-26 | 405 for anything but POST. 400 for a missing or falsy name (null, false, 0, the empty string) or a non-array list. Any truthy name, string or not, gives 200 with the summary of the descriptions joined by single spaces. |
| Text.Lower | pages/api/ai-summary.ts:29 | Same length; each ASCII capital lowered, other characters unchanged. |
| Text.Trim | lib/database.ts:305 | The trimmed name is the stretch of the input between its leading and trailing white space, and starts and ends with non-space. |
| Text.TrimIdempotent | lib/database.ts:305 | Trimming twice is trimming once. |
| Text.NatToStringRoundTrip | lib/timer-utils.ts:43-47 | Reading the decimal rendering back gives the number. |
| Text.IntToStringRoundTrip | lib/csv-export.ts:70-73 | Reading a signed decimal rendering back gives the integer. |
| Text.JoinEndsWithLast | lib/csv-export.ts:110 | A join ends with its last part. |
| Text.Join | lib/csv-export.ts:110 | Definition of `join`; see `JoinEndsWithLast`. |
| Seqs.FirstIndex | lib/database.ts:197 | `findIndex`: -1 exactly when nothing matches; otherwise a match with no match before it. |
| Seqs.FirstOccurrence | lib/database.ts:343 | `indexOf`: -1 exactly when the element is absent; otherwise a position holding it with no earlier one. |
| Seqs.Filter | lib/database.ts:251-254 | `filter`: never longer, keeps only matching elements, and keeps every matching element. |
| Seqs.RemoveAt | lib/database.ts:262 | `splice(i, 1)`: the elements before and after position i, shifted, with exactly that element gone. |
| Seqs.FilterAppend | lib/database.ts:444-457 | Filtering distributes over concatenation. |

## Left out

- Reading and writing the document is not modelled: the file system, the environment switch between the two back ends, the hosted client, JSON parsing and the revival of dates. Every operation works on the in-memory document.
- Identifier generation is not modelled. Fresh ids are parameters, and the model does not require them to be distinct.
- The clock is not modelled. The current instant is a parameter. Dates are integer milliseconds. A deadline given as text is taken as already parsed, and an empty one as absent.
- Legacy durations are kept in milliseconds rather than fractional hours. The half-hour default is exactly 1800000 ms, and floating-point rounding of other fractions is not modelled.
- The display `duration` string computed when a chapter is created is not modelled, because it reads the clock and only feeds display.
- `getLatestChapter` and `getAllChapters` sort the stored list in place by creation date, a library sort. They are not modelled.
- React rendering, polling intervals, `fetch` calls, saving an allocation from the editor, the chart, the comment fetch per contribution and `downloadCSV` are not modelled: they are UI and network code.
- The 500 answers of the handlers' `try`/`catch` blocks are not modelled. No modelled operation throws.
- Concurrent requests and lost updates between read and write of the whole document are not modelled. The model is sequential.
- Thin HTTP routes that only forward to the store are not modelled. Deadline editing (`pages/api/epochs/[id]/deadlines.ts`) is not part of this model.
- Text.Lower: lowers ASCII letters only, where `toLowerCase` folds all of Unicode.
- Text.Trim: strips the ASCII white space, U+00A0, U+FEFF and the two Unicode line terminators. The other Unicode space separators are not modelled.
- AiSummary.IsWordChar: the regular-expression word class is ASCII by definition, so this is exact. The `i` flag adds nothing, because the text is already lower-cased and every keyword is lower case.
- AiSummary.HandleAiSummary: a contribution without a text description is taken as empty text, which is how `join` prints `undefined` and `null` elements. A description that is not a string is taken as its printed form. A `NaN` name, which is falsy, has no counterpart among the model's numbers.
- DistributionsApi.Handle: a POST whose `participantId` or `epochId` is a truthy value other than a string (a number, `true`, an object) is accepted by the route and stored with that value as its id. The model's ids are strings, so it does not represent such a body; a falsy one is represented as absent.
- CsvExport.GenerateChapterCsv: the ISO rendering of dates and the template-literal rendering of stored timestamps are function parameters. The export instant is a parameter. The unused `chapterId` field of the export data is dropped.
- DistributionView.Put: a new key goes last. JavaScript objects list integer-like keys first, but contribution ids are generated identifiers, never integer-like.
- Points and sums are mathematical integers. Non-integer and non-numeric point values that JavaScript arithmetic would accept are not modelled.
- ResultsDashboard.AveragePoints: the average over no results is absent, where the page computes `NaN`.
