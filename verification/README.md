# Job radar: a verified model of `srv/jobs`

The job radar collects postings from many sources, collapses duplicates, has a language
model rank and brief them within a monthly budget, keeps a change history per posting, and
mails a weekly digest. This project models that engine in Dafny and proves what it relies on.
`dafny verify dfyconfig.toml` checks everything.

| file | module | what it is about |
|---|---|---|
| `basics.dfy`, `order.dfy` | `Basics`, `Decimal`, `TextOrder` | what several modules share; byte order of strings |
| `unionfind.dfy` | `UnionFind` | the in-place union-find (path halving, least index as root) |
| `closure.dfy` | `Closure` | the least equivalence containing a relation, and its unique least-named labelling |
| `dedupe.dfy` | `Postings`, `Dedupe` | the three linking passes, the in-place fold, and `Collapse`, what they compute |
| `match_laws.dfy` | `MatchLaws` | which rows match, counted by the tokens their titles do not share |
| `collapse_laws.dfy` | `CollapseLaws` | conservation, and what a collapsed row is in terms of its copies |
| `report.dfy` | `Digest` | picks, runner-ups, and which ids are marked as reported |
| `rank.dfy` | `Ranking` | the ranking worklist: halving, regrowing, requeueing, stopping |
| `rank_laws.dfy` | `RankingLaws` | what becomes of a batch that fails, and of the rows in it |
| `money.dfy` | `Budget` | the monthly ledger: runs, briefs, summaries, vouchers |
| `history.dfy` | `History` | the two tables behind `Upsert`, `AddEvent`, `CheckPending`, `applySignals`, `Purge` |
| `history_laws.dfy` | `HistoryLaws` | what every run of these operations keeps, and exactly when |
| `signal_laws.dfy` | `SignalLaws` | every event tells a change, every change is an event; what stays |
| `pay_laws.dfy` | `PayLaws` | salary and applicants against their events |
| `slot.dfy` | `Slot` | the single activity slot under all interleavings of its clients |
| `proxy.dfy` | `ProxyRace` | the proxy race: coordinator, workers, semaphore, one-place channel, wait group |
| `text.dfy`, `wrap.dfy` | `Text`, `Trim`, `Wrap` | greedy paragraph filling |
| `wrap_laws.dfy` | `WrapLaws` | the wrapped text, line by line |
| `brief.dfy` | `Brief` | normalising four-line briefs and reading them back |
| `salary.dfy`, `amounts.dfy` | `Salary`, `Amounts` | the largest amount in a salary text, and which amounts it is right for |
| `dates.dfy` | `Dates` | byte order of date strings against day differences |
| `itoa.dfy` | `Itoa` | integer printing into a fixed buffer |

Code that updates things in place is a class or a method over an array (`Uf`, `Merge`,
`ScoreTable`, `Books`, `Store`, `Activity`), each proved equal to a function of the old state;
the lemmas are about that function. What the code cannot determine is a parameter: the text
normalisations of the duplicate search (`Lens`), the answers of the language model
(`nat -> Call`), what a page check finds (`Page`), the readings of the clock, and the order in
which Go visits a map. Concurrent code is a step relation, and its theorems quantify over
every run.

## What is proved

* **Duplicates** (`Dedupe.Dedupe`, `Dedupe.CollapsedIffLinked`, `MatchLaws`, `CollapseLaws`). Two rows are
  collapsed together exactly when a chain of direct matches (equal non-empty canonical URL, equal key,
  same bucket with few enough title tokens apart) connects them, whatever order the buckets are
  visited in, although rows are only linked to first holders and joined pairs are skipped; the list
  stays as it is exactly when no two rows match. Copies and events are conserved; every field of a
  collapsed row is characterised by its copies.
* **Digest** (`Digest.ShownIsPrefix`, `Digest.DigestShowsTheBest`, `Digest.ReportedExactly`). On rows in
  query order the digest is a prefix of the groups and no omitted copy outscores a shown group. Which
  ids are marked as reported is told exactly from the input rows.
* **Ranking** (`Ranking.RankingEnds`, `Ranking.EveryIteration`, `Ranking.GivenUpAfterTwo`). The worklist
  ends for every sequence of answers, errors and drops, after at most 4n + 3 calls; every row is in
  exactly one place at every iteration; a row is requeued at most once and given up on after exactly
  two drops; a score is written once, for a row that was sent. A row fails exactly by a call that erred
  and was cancelled or for that row alone (`RankingLaws.FailedExactly`), so timeouts of larger batches
  lose nothing (`RankingLaws.EveryRowScored`).
* **Money** (`Budget.BudgetHolds`). Over any sequence of runs and vouchers in a month the charged usage
  stays below the budget plus one call, and v vouchers bound the raw spend; after a voucher only what
  was spent since is charged (`Budget.VoucherGivesRelief`).
* **History** (`HistoryLaws`). Over any sequence of operations at any times "reposted" events form an
  unbroken increasing chain up to the stored date, and every deadline event says which way the date
  moved. "Closed" and "reopened" alternate in step with `closed_at`, and deadline events form an
  unbroken chain, if and only if no closing, and no move, is repeated within a day; for closings the
  three-day check interval sees to that whenever they are recorded within 48 hours and a second of
  the check. Every event tells how its posting changed, and every such change is on record
  (`SignalLaws.EventsTellChanges`); raises are told from other salary changes (`SignalLaws.EventsSay`,
  `PayLaws`), no event is recorded twice within a day, and nothing known is forgotten.
* **Concurrency** (`Slot.MutualExclusion`, `Slot.SlotCanBeFreed`, `ProxyRace.RaceIsSafe`,
  `ProxyRace.RaceReturns`). At most one client holds the slot in any interleaving, starts and finishes
  match, and the holder always gets out, panics included. In the proxy race at most 25 probes fly,
  nobody sends on the closed channel, nothing deadlocks, a body that passed is returned if there
  is one, in at most 7n + 7 steps, and before the deadline nobody is passed over
  (`ProxyRace.EveryoneIsTried`).
* **Text and numbers** (`WrapLaws.LinesFit`, `WrapLaws.FewestLines`, `Brief.BriefRoundTrip`,
  `Brief.IdempotentExactly`, `Amounts.AmountReadsBack`, `Dates.OrderAgrees`, `Itoa.ComputeItoa`). A
  wrapped text keeps the words, its lines fit, no text with these words has fewer lines that do, and
  wrapping is idempotent; normalised briefs read back exactly, and normalising
  is idempotent exactly on replies told from their text; a salary amount is read back exactly if and only if
  the digits left apart in front are zeros; date strings order like day differences; `itoa` prints the
  exact numeral.

## Where the code and its promises differ

The model follows the code in each case; each difference has its exact condition.

* The comment on `BuildReport` (srv/jobs/report.go:41-42) says every copy of a reported item is
  marked. Copies are matched by key only, and merging can give the representative an
  organisation it did not have, so even the representative can be missed
  (`Digest.RepresentativeMissed`). `Digest.ReportedExactly` says which ids are marked.
* The comment on `Dedupe` (srv/jobs/dedupe.go:16) names a title overlap of 0.6; the code asks for
  0.75 when either title has at most three tokens (`MatchLaws.SimilarByDifference`).
* `applySignals` updates a row that is gone and records the event in a second statement. If more
  than 48 hours and one second pass in between, a later closing is taken for a repetition and its
  event is lost (`HistoryLaws.LateClosingIsLost`, `HistoryLaws.DelayBoundIsExact`;
  `HistoryLaws.TogglesExactly` for every run).
* A deadline moved to a date, back, and there again within a day leaves no event for the last move
  (`HistoryLaws.DeadlineChainCanBreak`; `HistoryLaws.DeadlinesExactly` for every run).
* `maxNum` is meant to handle "1 234" groups, but its two passes do not overlap: of
  "KES 1 234 567 890" it reads 567890 (`Amounts.BillionMisread`). The same happens to a group with a unit glued
  to it (`Amounts.GluedUnitMisread`), a text the page check's own pattern never passes on.
  `Amounts.AmountReadsBack` is the exact condition.
* `normalizeBrief` is not idempotent on every reply: quotes inside quotes, or a quoted label, change
  twice (`Brief.InnerQuoteNotIdempotent`, `Brief.PlainReplyNotIdempotent`). It is exactly if a label is
  seen in the reply, or stripping the reply leaves one line as it would be printed, or text without
  outer quotes that shows no label (`Brief.IdempotentExactly`).
* `itoa` prints the least 64-bit integer as "-" (`Itoa.ComputeItoa`).
* The comment on `wrap` speaks of columns; the code counts bytes. Lines fit the columns as well
  (`WrapLaws.LinesFit`), and the text is the one that counting columns would give if and only if each
  line is full in columns, too (`WrapLaws.ColumnsExactly`): always on ASCII words
  (`WrapLaws.AsciiIsOptimal`), not always on others (`WrapLaws.ColumnsLost`).

## Model

The first 47 rows are the main results; the others carry them, module by module.

| member | source | states |
|---|---|---|
| Dedupe.Dedupe | srv/jobs/dedupe.go:24-78 | the result is a function of the input and the text attributes alone, whatever order the buckets are visited in |
| Dedupe.CollapsedIffLinked | srv/jobs/dedupe.go:10-69 | two input rows are collapsed together exactly when a chain of direct matches connects them |
| MatchLaws.SimilarByDifference | srv/jobs/dedupe.go:216-236 | titles of two or more tokens are similar exactly when the shared tokens are at least three times, or one and a half times if both have four or more, those only one of them has |
| MatchLaws.UnchangedExactly | srv/jobs/dedupe.go:24-78 | the list is left as it is if and only if no two rows match: same non-empty canonical URL, same key, or same bucket with few enough title tokens apart |
| CollapseLaws.CollapseConserves | srv/jobs/dedupe.go:65-124 | the sum of (Dupes + 1) is the input length and the multiset of events is unchanged |
| CollapseLaws.GroupSightings | srv/jobs/dedupe.go:88-105 | a collapsed row has the least non-empty FirstSeen and the greatest LastSeen of its copies |
| CollapseLaws.GroupListing | srv/jobs/dedupe.go:92-101 | greatest known applicants; closed only if every copy is; reposted if some copy is |
| CollapseLaws.GroupTexts | srv/jobs/dedupe.go:98-120 | deadline, org, location, salary and why are the first non-empty ones in index order |
| CollapseLaws.CollapseKeepsScoreOrder | srv/jobs/dedupe.go:65-123 | on rows ordered by score the groups are too, and each carries the greatest score of its copies |
| Digest.ShownIsPrefix | srv/jobs/report.go:51-58 | picks are the first groups that reach 70, at most ten, then come runner-ups, at most eight; together a prefix, and a group is omitted only when eight runner-ups are shown |
| Digest.DigestShowsTheBest | srv/jobs/report.go:51-58 | no copy of an omitted group outscores a group that is shown |
| Digest.ReportedExactly | srv/jobs/report.go:41-72 | a posting is marked if and only if some shown group's first organisation and leading title give the posting's own key |
| Ranking.RankPending | srv/jobs/rank.go:75-167 | the loop of the code is that run: rows left, scores stored, record written |
| Ranking.RankingEnds | srv/jobs/rank.go:101-161 | at most 4n + 3 calls for n rows, whatever the model answers |
| Ranking.EveryIteration | srv/jobs/rank.go:105-158 | at every iteration each initial row is in exactly one place, and a pending row has not been scored in this run |
| Ranking.GivenUpAfterTwo | srv/jobs/rank.go:147-158 | at every iteration: a row given up on was dropped by exactly two replies, a pending one as often as it is marked, and no row is requeued twice |
| RankingLaws.FailedExactly | srv/jobs/rank.go:119-130 | at every iteration exactly those rows have failed that were sent in a batch whose call erred and was cancelled or for one row only |
| RankingLaws.EveryRowScored | srv/jobs/rank.go:103-130 | however often batches of several rows time out, if answering calls answer every row, a run the budget does not stop scores every row |
| Budget.BudgetHolds | srv/jobs/rank.go:31-38 | charged usage stays below budget plus one call; v vouchers bound the raw spend by (v + 1) limits and v half-micro-dollars |
| Budget.VoucherGivesRelief | srv/jobs/store.go:386-406 | after a voucher and any runs the charge is what these runs cost, up to half a micro-dollar |
| HistoryLaws.RunsAreRecorded | srv/jobs/store.go:136-195 | over any run at any times: reposted events chain up to the stored date, the flag says whether there are any, and every deadline event says which way the date moved |
| HistoryLaws.TogglesExactly | srv/jobs/store.go:184-195 | over any run: closed and reopened alternate in step with closed_at at every moment if and only if no closing is found recorded already within the day |
| HistoryLaws.HistoriesConsistent | srv/jobs/signals.go:232-244 | over any run in which each closing is recorded within 48 hours and a second of its check, closed and reopened alternate too: a due posting is never checked so early that its closing counts as a repetition |
| HistoryLaws.DelayBoundIsExact | srv/jobs/signals.go:349-351 | a run whose first closing is recorded with a given delay is consistent if and only if the delay is within the bound |
| HistoryLaws.DeadlinesExactly | srv/jobs/store.go:184-195 | over any run: deadline events form an unbroken chain up to the stored deadline at every moment if and only if no move is found recorded already within the day |
| SignalLaws.EventsTellChanges | srv/jobs/signals.go:342-402 | an operation's new events each tell how its posting changed, and every event that tells of the change is on record, from now or within the day |
| SignalLaws.EventsSay | srv/jobs/signals.go:369-378 | over any run every event says what its kind says: a raise is more than two per cent, another salary change is not, a reappearance is after ten days |
| PayLaws.SalariesExactly | srv/jobs/signals.go:369-378 | over any run: salary events form an unbroken chain up to the stored salary at every moment if and only if no change is found recorded already within the day |
| PayLaws.ApplicantsExactly | srv/jobs/signals.go:358-368 | the same for the numbers of applicants, from none to the stored one |
| SignalLaws.WellScoredStay | srv/jobs/store.go:308-311 | through any operations a posting scored fifty or more stays, with its score |
| Dates.OrderAgrees | srv/jobs/signals.go:211-218 | string order is the sign of the day difference (ordering as in section 5.1 of RFC 3339) |
| Dates.DeadlineGaps | srv/jobs/signals.go:87-95 | over any run every extension between dates is a positive gap, every shortening a negative one |
| Slot.MutualExclusion | srv/jobs/status.go:8-44 | at most one client is active, the slot is labelled exactly while one is, Starts and Finishes match, only the holder relabels |
| Slot.SlotCanBeFreed | srv/jobs_handlers.go:161-172 | from every reachable state of a live process the holder's own steps free the slot |
| Slot.PollIsRight | srv/jobs/status.go:19-64 | in every interleaving a held slot shows the latest label and its time, and the end of the last session stays on show |
| ProxyRace.RaceIsSafe | srv/jobs/proxy.go:95-140 | at most 25 probes in flight, no send on the closed channel, a returned body passed, failure only if none did |
| ProxyRace.RaceReturns | srv/jobs/proxy.go:95-140 | a run that cannot go on has returned, with a body if and only if a probe passed |
| ProxyRace.EveryoneIsTried | srv/jobs/proxy.go:98-140 | a finished probe has passed or its proxy is marked bad, not both; failure before the deadline means every candidate was probed and found bad |
| ProxyRace.RunsAreShort | srv/jobs/proxy.go:98-140 | every interleaving over n candidates has at most 7n + 7 steps |
| Wrap.WrapKeepsWords | srv/jobs/report.go:199-213 | the text has the same words before and after |
| WrapLaws.LinesFit | srv/jobs/report.go:198-213 | every line of the text is its words with single spaces and fits the width, in bytes and in characters, or is one word |
| WrapLaws.FewestLines | srv/jobs/report.go:198-213 | no text with the same words whose lines fit in bytes, or are one word, has fewer lines |
| Brief.BriefRoundTrip | srv/jobs/brief.go:142-183 | reading back a normalised brief gives exactly the last value of each label in label order, if there are two or more |
| Brief.IdempotentExactly | srv/jobs/brief.go:145-165 | for every reply: normalising twice is normalising once if and only if a label is seen in it, or what stripping leaves is one printed line, or shows neither a label nor an outer quote |
| Amounts.AmountReadsBack | srv/jobs/signals.go:404-421 | any amount, grouped by dots, commas or any number of blanks, with or without cents, among text without digits: never more is read, and it is read exactly if and only if the digits two passes leave apart in front are zeros |
| Amounts.RangeReadsLarger | srv/jobs/signals.go:404-421 | of a range the larger end is read, each end as it would be alone |
| Itoa.ComputeItoa | srv/jobs/status.go:85-105 | the exact numeral, within the 20 bytes, for every 64-bit integer but the least |
| UnionFind.Uf.Find | srv/jobs/dedupe.go:249-255 | returns the least index of the class; path halving changes no class |
| UnionFind.Uf.Union | srv/jobs/dedupe.go:256-265 | merges exactly the two classes, under the smaller name |
| UnionFind.RepointKeepsRoots | srv/jobs/dedupe.go:251 | pointing a node at another non-larger node of its tree keeps the forest and moves no root |
| UnionFind.LinkMergesTwo | srv/jobs/dedupe.go:261-264 | linking a root below a smaller root renames exactly the members of the larger one |
| UnionFind.JoinedIsLeastCoarsening | srv/jobs/dedupe.go:256-265 | after a union two indices share a class exactly when they did before or each was with one of the two operands |
| Closure.LinkedIsLeast | srv/jobs/dedupe.go:10-19 | chains of direct matches give the least equivalence: any labelling that respects the matches identifies linked indices |
| Closure.SameLeaderIffLinked | srv/jobs/dedupe.go:65-69 | two indices have the same least linked index exactly when they are linked |
| Closure.LabellingIsUnique | srv/jobs/dedupe.go:34-69 | a least-named labelling that joins all matches and nothing unlinked is the leader labelling, however it was computed |
| Dedupe.ComputeSimilar | srv/jobs/dedupe.go:216-236 | counting common tokens decides the similarity that `MatchLaws.SimilarByDifference` describes |
| MatchLaws.SimilarOfSize | srv/jobs/dedupe.go:229-235 | titles of equal size: of two or three tokens none may differ, of more at most a quarter |
| MatchLaws.MatchesCollapse | srv/jobs/dedupe.go:34-64 | rows that match are collapsed together |
| MatchLaws.TwoRows | srv/jobs/dedupe.go:24-78 | of two rows one is left, the second merged into the first, exactly when they match |
| MatchLaws.OneTokenApart | srv/jobs/dedupe.go:229-235 | two concrete five-token titles with one token apart are collapsed |
| Dedupe.UnionStep | srv/jobs/dedupe.go:36-45 | joining two directly matching rows keeps the partition sound, puts them together and separates nothing |
| Dedupe.LinkToFirst | srv/jobs/dedupe.go:36-47 | linking a row to the first holder of its value leaves all rows so far together with their holders |
| Dedupe.LinkUrlsAndKeys | srv/jobs/dedupe.go:34-51 | after the first pass all rows with equal non-empty URL, or equal key, are together |
| Dedupe.LinkPair | srv/jobs/dedupe.go:55-61 | a pair of one bucket is together afterwards if similar, although joined pairs are skipped |
| Dedupe.LinkBucket | srv/jobs/dedupe.go:53-63 | all similar pairs of a bucket are together afterwards, and nothing is separated |
| Dedupe.LinkSimilar | srv/jobs/dedupe.go:52-64 | visiting the buckets in any order settles all of them |
| Dedupe.LinkedEverything | srv/jobs/dedupe.go:34-64 | the two passes together join every directly matching pair |
| Dedupe.MergeRow | srv/jobs/dedupe.go:80-124 | the statements of a merge, one by one, give the merged row |
| Dedupe.Merge | srv/jobs/dedupe.go:80-124 | merging in place changes that output row only |
| Dedupe.GroupsStep | srv/jobs/dedupe.go:68-76 | one more row either opens a new group at the end or is folded into its class's group |
| Dedupe.PlaceRow | srv/jobs/dedupe.go:70-75 | the representative map and the output rows stay those of the rows met so far |
| Dedupe.FoldGroups | srv/jobs/dedupe.go:65-77 | the output is one row per class in order of least index, later members merged in index order |
| CollapseLaws.GroupLatest | srv/jobs/dedupe.go:82-87 | latestFirstSeen is the greatest FirstSeen of two or more copies and stays empty on a row never merged |
| CollapseLaws.GroupFirsts | srv/jobs/dedupe.go:115-123 | score and report date are the first ones known among the copies in index order |
| CollapseLaws.GroupEvents | srv/jobs/dedupe.go:102 | the group lists the events of all its copies, copy after copy |
| CollapseLaws.GroupDupes | srv/jobs/dedupe.go:81 | Dupes counts the copies folded into the first |
| CollapseLaws.GroupIdentity | srv/jobs/dedupe.go:65-76 | id, URL, title and source come from the least-index copy |
| Digest.Select | srv/jobs/report.go:51-58 | the loop computes picks and runner-ups |
| Digest.PicksArePrefix | srv/jobs/report.go:51-58 | the picks are the first groups that reach the threshold, at most ten |
| Digest.RunnerUpsFollow | srv/jobs/report.go:51-58 | the runner-ups are the next groups, at most eight |
| Digest.ReportIds | srv/jobs/report.go:59-72 | the set of keys and the second loop give the ids of rows that share a shown row's key, in order |
| Digest.CoveredExactly | srv/jobs/report.go:68-72 | an id is marked exactly when some input row with it has the key of a shown row |
| Digest.GroupKey | srv/jobs/report.go:62-67 | a collapsed row's key, told from its copies: first non-empty organisation, least-index title |
| Digest.RepresentativeReported | srv/jobs/report.go:60-72 | a shown group marks its representative if that names an organisation or no copy does |
| Digest.RepresentativeMissed | srv/jobs/report.go:41-72 | a shown group does not mark its representative when merging brings the organisation and the key depends on it |
| Digest.RepresentativeCanBeMissed | srv/jobs/report.go:41-72 | two concrete rows, the same page under two URLs, for which the representative is not marked |
| Ranking.OnlySent | srv/jobs/rank.go:199-209 | exactly the reply entries whose id was sent are kept |
| Ranking.RankBatch | srv/jobs/rank.go:175-210 | an error, an empty reply, or the entries with ids that were sent |
| Ranking.StoreScores | srv/jobs/rank.go:131-146 | the stored column and the set of answered ids |
| Ranking.RecordFacts | srv/jobs/rank.go:131-146 | old scores stay; exactly the answered ids gain one, the first answer's, clamped to 0..100 |
| Ranking.TakeAnswer | srv/jobs/rank.go:111-160 | the loop body makes the state machine's step |
| Ranking.StepProgress | srv/jobs/rank.go:111-160 | a call lightens the worklist, or leaves it unchanged and at least halves the batch size |
| Ranking.StepPays | srv/jobs/rank.go:111-160 | every call lowers a potential in which halvings and regrowths are paid for |
| Ranking.CallBound | srv/jobs/rank.go:106-161 | a run makes at most as many calls as its potential |
| Ranking.StepConserves | srv/jobs/rank.go:111-160 | no call loses or duplicates a row |
| Ranking.StepScores | srv/jobs/rank.go:131-146 | a call adds first-time scores within 0..100 only, for rows that leave as scored |
| Ranking.RunIsGated | srv/jobs/rank.go:106-119 | every call of a run is made while charged usage plus the run's spend is below the budget; its cost is the sum of its calls |
| Ranking.RunIterates | srv/jobs/rank.go:106-161 | a run ends in the state after some number of iterations |
| Ranking.RankingConserves | srv/jobs/rank.go:101-161 | each initial row ends in exactly one of pending, scored, failed, given up |
| Ranking.RunPricesTokens | srv/jobs/rank.go:24-27 | what a run books as cost is $0.35 and $1.50 per million of the tokens it books |
| RankingLaws.FirstBatch | srv/jobs/rank.go:100-109 | the first call sends the first twelve rows |
| RankingLaws.RetriesInHalves | srv/jobs/rank.go:119-126 | after an uncancelled failure of n > 1 rows nothing has left the worklist and the next batch is its first n / 2 rows |
| RankingLaws.FailsAtOnce | srv/jobs/rank.go:127-129 | a cancelled failure, or one of a single row, fails the batch and requeues nothing |
| RankingLaws.AnswerRegrows | srv/jobs/rank.go:147-158 | after an answer exactly the rows dropped for the first time come first, and the batch may be twice as large, up to twelve |
| RankingLaws.FailedAlone | srv/jobs/rank.go:119-130 | in a run without a cancelled call the failed rows are those sent alone to an erring call |
| RankingLaws.ScoreStep | srv/jobs/rank.go:131-146 | a new score is the answer of that call for that row, moved into 0..100 |
| Budget.OpKeepsSound | srv/jobs/store.go:386-406 | runs and vouchers keep the ledger within what the vouchers so far can cover |
| Budget.ExhaustedMeansNoCalls | srv/jobs/rank.go:80-85 | at or over budget no run makes a call or changes the ledger |
| Budget.NoVoucherChargesAll | srv/jobs/store.go:386-395 | without a voucher the raw spend is charged |
| Budget.VoucherLetsRank | srv/jobs/store.go:398-406 | right after a voucher a ranking run makes its first call and stops only when done or when its own spend comes within the rounding of the budget |
| Budget.Books.GetCost | srv/jobs/store.go:386-395 | the month's raw spend and what is charged after the credit, never negative |
| Budget.Books.ApplyVoucher | srv/jobs/store.go:400-406 | the credit becomes the raw spend, rounded to six decimals |
| Budget.Books.Rank | srv/jobs/rank.go:75-167 | a ranking run is a ledger operation that is allowed |
| Budget.Books.Brief | srv/jobs/brief.go:32-88 | one gated call per row until budget or context ends it, none once the context is cancelled; exactly the rows answered without error are briefed |
| Budget.Books.Summarize | srv/jobs/rank.go:271-314 | at most one gated call, booked whether or not it succeeds |
| History.Store.AddEvent | srv/jobs/store.go:184-195 | the event is appended unless an identical one is less than a day old |
| History.Store.Upsert | srv/jobs/store.go:136-174 | the event calls and the UPDATE make the state machine's step; new exactly when the URL was unknown |
| History.Store.ApplySignals | srv/jobs/signals.go:342-402 | a page check makes the state machine's step |
| History.Store.SelectDue | srv/jobs/signals.go:241-244 | exactly the due postings, in the query's order and cut off at the limit: none left out is ahead of one selected |
| History.Store.CheckPending | srv/jobs/signals.go:238-280 | one query and its loop, until the context ends it, have the effect of atomic checks of postings each due at its own time; no other row changes |
| History.HidesPass | srv/jobs/store.go:261-265 | postings hidden or restored while pages are checked: however the two interleave, the tables end as if all the checks had come first |
| History.Store.DeleteStale | srv/jobs/store.go:308-311 | stale postings and their events are removed |
| HistoryLaws.LateClosingIsLost | srv/jobs/signals.go:349-351 | for every longer delay the run loses its next closing |
| HistoryLaws.MoveRecordedExactly | srv/jobs/store.go:150-156 | the deadline events lead up to the new date if and only if the move is not taken for a repetition |
| HistoryLaws.DeadlineChainCanBreak | srv/jobs/store.go:150-156 | a deadline moved from A to B, back and to B again, at any four times: the events lead up to it if and only if the two moves to B are a day apart |
| HistoryLaws.ChainGrows | srv/jobs/store.go:157-159 | a later posted date always adds a link: it cannot repeat an earlier pair |
| HistoryLaws.GoneToggles | srv/jobs/signals.go:349-351 | a page found gone keeps the alternation if and only if its event is recorded |
| HistoryLaws.PromptIsFresh | srv/jobs/signals.go:241-244 | the closings of a posting whose page is due for a check are too old to be repeated |
| HistoryLaws.ReopeningRecorded | srv/jobs/store.go:163-165 | a closed posting listed again always gets its reopened event: its closing day is new |
| SignalLaws.OthersTellNothing | srv/jobs/store.go:261-265 | scoring and hiding change nothing an event tells of, and record nothing; the first score stays, and a posting is hidden as the latest call says |
| SignalLaws.EventsAreSpaced | srv/jobs/store.go:184-195 | over any run equal events are at least a day apart |
| SignalLaws.OpKeeps | srv/jobs/store.go:160-174 | nothing known of a posting is forgotten, and its page is read at most every three days, not while it is closed |
| SignalLaws.OpUpdates | srv/jobs/store.go:166-174 | a listing marks the posting as seen and open and keeps the longer snippet; a check marks it as checked, and closed exactly if the page is gone |
| SignalLaws.NewIsPlain | srv/jobs/store.go:142-146 | a new posting is visible, open, unscored and without events |
| SignalLaws.OnlyStaleGo | srv/jobs/store.go:308-311 | a posting goes exactly when a purge finds it unseen for ninety days and not scored fifty; its events go, those of others stay |
| SignalLaws.BestAreRead | srv/jobs/signals.go:241-244 | a due posting is left out only when the list is full of postings scored at least as high |
| SignalLaws.BestComeFirst | srv/jobs/signals.go:241-244 | the list is in the order of the scores, the newest first among equal ones |
| PayLaws.LeadsExactly | srv/jobs/store.go:184-195 | a change of a figure is on record if and only if it is not taken for a repetition |
| PayLaws.AmountChangeLogged | srv/jobs/signals.go:369-378 | from one amount that is read exactly to another: on record as a raise if and only if the new one is more than 51/50 of the old one |
| PayLaws.EurosChangeLogged | srv/jobs/signals.go:369-378 | from "EUR d0.000" to "EUR e0.000": a raise if and only if e is more |
| Slot.Activity.Start | srv/jobs/status.go:19-28 | succeeds exactly on a free slot and labels it; otherwise nothing changes |
| Slot.Activity.Switch | srv/jobs/status.go:30-37 | relabels a held slot, leaves a free one |
| Slot.Activity.Finish | srv/jobs/status.go:39-44 | frees the slot and records the summary |
| Slot.Activity.State | srv/jobs/status.go:53-64 | reports the label, and a start time exactly while held |
| Slot.StartsMatchFinishes | srv/jobs/status.go:19-44 | in a well-formed log of slot calls every successful Start has exactly one Finish, except an open session |
| Slot.StepAgreed | srv/jobs_handlers.go:155-218 | every step of every client keeps slot, log and clients in agreement |
| Slot.RunAgreed | srv/jobs/report.go:354-386 | they agree after every run of requests, scheduler passes, panics and polls |
| Slot.OthersCannotInterfere | srv/jobs/status.go:20-44 | no step of another client moves the holder or frees its slot |
| Slot.StagesAreShown | srv/jobs_handlers.go:155-218 | a job that completes has shown all its stages in order: fetch, rank, brief, check; rank, brief; email |
| ProxyRace.Recount | srv/jobs/proxy.go:96-105 | semaphore tokens and wait-group counter follow the workers' positions |
| ProxyRace.StepKeepsInv | srv/jobs/proxy.go:98-140 | every step of coordinator, workers and closer keeps the invariant |
| ProxyRace.StepCostsOne | srv/jobs/proxy.go:98-140 | every step lowers a rank that bounds the steps left |
| ProxyRace.NoDeadlock | srv/jobs/proxy.go:98-140 | until the call has returned some participant can move without the deadline |
| ProxyRace.RaceIsBusy | srv/jobs/proxy.go:98-130 | the launching waits only while 25 probes are in flight; a hit found meanwhile is returned when all others are cancelled and out |
| ProxyRace.FirstIsReturned | srv/jobs/proxy.go:98-140 | in every interleaving the body returned is the one offered first |
| Wrap.GreedyIsOptimal | srv/jobs/report.go:199-213 | no legal breaking of a non-empty word list has fewer lines, whatever length is counted, bytes or columns |
| Wrap.FillKeepsWords | srv/jobs/report.go:201-211 | the lines hold exactly the words, and only a one-word line may be too long |
| Wrap.GreedyStaysAhead | srv/jobs/report.go:201-211 | while filling, no legal breaking of the same words needs fewer lines |
| Wrap.WrapIsIdempotent | srv/jobs/report.go:199-213 | wrapping twice is wrapping once |
| Wrap.ComputeWrap | srv/jobs/report.go:199-213 | the builder loop gives the text that `WrapLaws` describes |
| WrapLaws.SplitsIntoLines | srv/jobs/report.go:199-213 | split at its line feeds the text gives the lines of the greedy filling |
| WrapLaws.ColumnsExactly | srv/jobs/report.go:198-213 | the text is the one counting characters gives if and only if each line is too full, in characters, for the next word |
| WrapLaws.FewestColumns | srv/jobs/report.go:198-213 | then no text with the same words that fits the columns has fewer lines |
| WrapLaws.AsciiIsOptimal | srv/jobs/report.go:198-213 | on ASCII words the text is the one counting characters gives, with the fewest lines |
| WrapLaws.ColumnsLost | srv/jobs/report.go:202 | two two-byte letters: a text of three characters is broken at width three |
| Brief.Gather | srv/jobs/brief.go:146-154 | the loop collects the last value of each label |
| Brief.NormalizeBrief | srv/jobs/brief.go:145-165 | labelled lines in label order, or the trimmed text without a label |
| Brief.BriefItems | srv/jobs/brief.go:170-183 | the loop returns the labelled items, none if there are fewer than two |
| Brief.ItemExactly | srv/jobs/brief.go:172-178 | a line is an item exactly if one to eleven bytes stand before its first colon |
| Brief.BulletedNormalizes | srv/jobs/brief.go:146-164 | a label in any case behind any bullets is recognised and printed as it should be |
| Brief.NormalizeIsIdempotent | srv/jobs/brief.go:145-165 | normalising twice is normalising once when a label was recognised |
| Brief.InnerQuoteNotIdempotent | srv/jobs/brief.go:155-157 | a quote inside quotes loses a layer each time |
| Brief.PlainReplyNotIdempotent | srv/jobs/brief.go:145-165 | a quoted line with a label in lower case loses its quotes, and then is relabelled |
| Itoa.NumeralReadsBack | srv/jobs/status.go:85-105 | reading the numeral gives the number back |
| Itoa.NumeralIsUnique | srv/jobs/status.go:93-99 | a digit string without leading zero is the numeral of its value |
| Dates.DaysAreExact | srv/jobs/signals.go:211-218 | the day difference of two dates in the closed form of the calendar, kept at 106751 days when the duration saturates, and 0 for anything else |
| Dates.CivilDays | srv/jobs/signals.go:211-218 | day numbers follow the closed form of the Gregorian calendar |
| Dates.ParsesExactly | srv/jobs/signals.go:212-213 | a string parses as a date exactly if it is a valid date written in four, two and two digits |
| Dates.CalendarOrder | srv/jobs/signals.go:211-218 | an earlier date has a smaller day number |
| Dates.DateStringOrder | srv/jobs/store.go:152 | byte order of date strings is calendar order |
| Dates.GapsAddUp | srv/jobs/signals.go:211-218 | day differences within a duration's range, its ends included, add up and change sign with direction |
| Salary.ComputeMaxCents | srv/jobs/signals.go:405-421 | the loop keeps the largest value read |
| Salary.NumberFound | srv/jobs/signals.go:408 | a number is one match, with the marks behind it |
| Amounts.ShortAmountReadsBack | srv/jobs/signals.go:404-421 | with dots, commas, or at most two blanks and a visible end, the amount is read exactly |
| Amounts.TwicePieces | srv/jobs/signals.go:407 | which blanks the two passes remove from digits with any number of blanks, wherever these stand |
| Amounts.FrontSplits | srv/jobs/signals.go:407 | how many groups stand in front of the last blank that is left |
| Amounts.AmountCents | srv/jobs/signals.go:409-416 | a match is worth the amount: decimal mark exactly before two last digits |
| Amounts.TenDigitsMisread | srv/jobs/signals.go:407 | with three blanks head and first group are read apart from the other two |
| Amounts.BillionMisread | srv/jobs/signals.go:405-421 | "KES 1 234 567 890" is read as 567890 |
| Amounts.GluedUnitMisread | srv/jobs/signals.go:229 | a unit glued to the last of blank-separated groups leaves only that group, unless all before it is zeros |

## Left out

- Text normalisations of the duplicate search (canonical URL, key, bucket, title tokens): parameters of the model; nothing proved depends on what they compute.
- Floating point: similarity is in exact integers, money in units of 1e-8 USD, salaries in cents. Rounding of sums in the database, and amounts beyond the range of a float, are not modelled; a tie in the voucher's sixth decimal may go either way.
- Negative token counts reported by the gateway.
- The language model, the network, page scraping and regular-expression matching of page text: arbitrary parameters.
- HTTP handlers other than the slot protocol, e-mail, templates, log texts, region, kind and why columns of a ranking.
- Failed database writes, and a database connection without enforced foreign keys (db/db.go:28 sets them on one connection): operations are total and deleting a posting deletes its events.
- The surrogate id of a posting: the unique URL stands for it.
- Clock readings: each operation reads the clock once, except the "gone" check, which reads it for its row and again for its event.
- HistoryLaws.HistoriesConsistent: requires promptly recorded closings; `HistoryLaws.TogglesExactly` states the exact condition for every run without that requirement, and `HistoryLaws.RunsAreRecorded` needs none.
- Sub-second times and a clock that is not in UTC seconds.
- Loading events into rows (`AttachEvents`), and `Signals`, `Verdict` and event labels: readers of the history that change nothing.
- Month changes: the ledger covers one calendar month.
- Concurrent spending: the report preview calls `Summarize` outside the slot (srv/jobs_handlers.go:134-141); the budget bound is for runs one at a time.
- Ranking.RankPending: `ranked` counts reply entries, as the code does, not distinct postings.
- Truncation of briefs to 900 bytes, and invalid UTF-8.
- Salary texts with digits besides one amount or one range, with one-digit cents, or with different blanks in one amount.
- Sections of the weekly report other than its selection and ids.
- The proxy pool's lists and cool-downs: the candidates of one race are given, and the code does not keep its list of good proxies within ten on the second success path.
- Starvation of the scheduler by requests, and a panic in the scheduler, which ends the process.
- Configuration, feedback, notes, votes, migrations: small list and toggle logic.
