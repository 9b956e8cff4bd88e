# Verified model of the impact pipeline

The repository measures engineering impact from a code host's history. This project models the parts
of it where being right is hard, and proves what those parts promise:

- **Ingest.** The cache, persist and flush protocol of the extraction client, over every interleaving of
  its workers and every crash (`Client`, `Refetching`, `LostTail`, `Ledger`); recursive bisection of capped
  searches (`Discovery`); content-stable batching and its shard files (`Batches`); the NUL-separated
  `git log` stream (`GitStream`, with the printer it inverts in `GitPrinter` and the paths that survive in
  `GitPaths`).
- **Normalisation.** The glob compiler (`Glob`), the comment blanker and the comment remover (`Lexers`),
  identity clustering (`Actors`), owner resolution (`Ownership`).
- **Features.** Episodes by union-find (`Episodes`, on `Forests`), regression candidates and survival
  (`Regression`), bounded reachability (`Reach`), the TF-IDF index and its candidate edges
  (`SemanticIndex`, `SemanticEdges`).
- **Analytics and export.** The time-respecting propagation walk (`EpisodeSources`,
  `Propagation`, `PropagationProofs`, `PropagationAnalyzer`), content-addressed identifiers (`Json`,
  `JsonReader`, `Ids`), bootstrap draws and their aliases (`Resample`, `Bootstrap`), the render plan
  (`RenderPlan`, `PageGrowth`).

`Ordering` and `Decimal` hold what Python's sorting and number formatting do, and `Collections` a few shared
definitions.

Loops and objects are methods and classes, each proved equal to a specification function or to a stated
relation; the promises are lemmas about those specifications. Foreign calls are parameters: the decay
function, the square root and the token weights (with the ranges the proofs need), hashing, the e-mail and
ownership patterns, the server. Digests are opaque, so identity results are about the text that is hashed.
Arithmetic is exact: the source's `round(..., 6)` is not modelled. Caps and counts are natural numbers.

## Where the code differs from its documentation, or surprises

The model follows the code.

- A trailing globstar "also matches the directory itself": not when the pattern ends in a run of two or more
  of them after another segment. `SegmentReadingExact` gives the exact exception.
- `$` in the compiled glob also accepts one trailing newline, and `.` stops at a newline. `AgreementExact`: on a
  text the expressions mean what the glob language says, for every pattern, exactly when it has no newline.
- The client's header says the ledger is flushed before the caller advances. Flushes are batched: a page already
  returned can be missing from the disk ledger unless every page is flushed: interval 0, or 1 with a single worker
  (`NothingMissingExactly`). `LostTailIsBounded` bounds what a crash can forget, and `LostTailIsAttained` attains it.
- A response recorded ok can lose its body: by a forced refetch (`ForcedRefetchCanTear`), and without any force by
  two workers asking for the same page (`SameRequestTwiceCanTear`, and without a crash
  `SameRequestTwiceCanGarble`). `BeginIsSafeExactly` says which requests are safe when they begin;
  `RestartIsSafeExactly` which are for what is already on disk, where a single worker may force anything not
  flushed yet.
- A plain path that holds the record separator or ends in a newline does not survive the `git log` parser
  (`PlainPathExact`), except a path of newlines only that later tokens happen to supply (`EchoedPathSurvives`).
- Records are keyed by e-mail, so clustering by e-mail never merges anybody (`ActorResolver.LinkByEmail`).
- An author without an address is identified by name, though the hashing module says never to use a name (`WhoIs`).
- "The nearest enclosing owners file wins": one without a matching rule and without defaults is passed over
  for the next one out (`NearestIsPassedOver`); `NearestDecidesExactly` says when it does decide.
- A stored shard is read by name whatever it holds, so a widened bucket loses its new numbers (`RerunExact`), and
  a finished discovery window is never searched again (`FinishedWindowIsFrozen`).
- The deletion table depends on the visiting order; `MergeOrderIsExact` says which orders are safe.
- An adoption exactly at the end of the window is not counted as recent, because a zero distance is falsy, and one
  after the window is counted (`RecentExact`).
- Raising the `featured` cap can drop an episode page (`MoreFeaturedCanDropAPage`); `MoreFeaturedIsSafeExactly` says,
  from the profiles alone, when none can be dropped.
- Aliases collide with original ids that look like them; `UniquenessExact` and `JoinExact` say exactly when for any
  draws, `BootstrapUniqueExact` and `BootstrapJoinExact` for those the bootstrap can make.

## Model

| member | source | states |
|---|---|---|
| Client.PersistBeforeAdvancing | src/impact/ingest/github_client.py:318-471 | In every run, any interleaving and crashes: a row in memory or on disk says how the server answered that request; an ok row has a response file, and a body the server gave for it was stored completely before; no request has two rows; and every body returned was served for that request |
| Client.OnlyGoodAnswersAreChecked | src/impact/ingest/github_client.py:382-471 | In every run a worker comes to a flush check only for an answer, ok or 404, that the server gave; once an error is recorded it raises, and flushes and returns nothing |
| LostTail.LostTailIsBounded | src/impact/ingest/github_client.py:283-295 | Just after a successful request's flush check, in any reachable state, at most `flushEvery - 1` recorded requests plus one for every other worker are missing from the disk ledger, and a restart changes the row of no other |
| LostTail.LostTailIsAttained | src/impact/ingest/github_client.py:283-295 | Online, for every worker count and flush interval above zero some run attains that bound, and, if it is above zero, a page that was returned is among the missing |
| LostTail.NothingMissingExactly | src/impact/ingest/github_client.py:10-12 | Online, with at least one worker, nothing is missing after any flush check of any run, and no returned page is, if and only if the flush interval is 0, or is 1 with a single worker |
| Client.RunKeepsInvariant | src/impact/ingest/github_client.py:551-603 | Both invariants, on stored bodies and on counters, hold after every step of every run |
| Refetching.RerunIsServedFromDisk | src/impact/ingest/github_client.py:340-345 | After any run whose requests endanger no row on disk, crash or not, a request whose row on disk is ok is answered from its file without asking the server |
| Refetching.PoliteRunKeepsLoadable | src/impact/ingest/github_client.py:214-231 | While no request clashes, every ok row, in memory or on disk, keeps a file with a complete body |
| Refetching.BeginIsSafeExactly | src/impact/ingest/github_client.py:318-351 | Online, after any run without clashes: whatever non-clashing requests, interleavings and crashes follow a request's beginning, every ok row, in memory or on disk, stays loadable if and only if the request does not clash; it clashes when it may write a file that an ok row claims, or shares a file with a busy worker and one of the two may write it |
| Refetching.RestartIsSafeExactly | src/impact/ingest/github_client.py:318-351 | What a restart relies on, online, after any run without endangering requests: whatever such requests, interleavings and crashes follow, every ok row on disk stays loadable if and only if the request does not endanger one; it endangers when it shares a file with a busy worker and one of the two may write it, or may write a file whose ok row is on disk, or is in memory while some other worker may still come to a flush check without replacing that row first |
| Refetching.SafeRunKeepsDisk | src/impact/ingest/github_client.py:283-295 | In every run without endangering requests every ok row on disk keeps a file with a complete body |
| Refetching.ForcedRefetchCanTear | src/impact/ingest/github_client.py:331-345 | From the start, one worker that fetches a page, has it flushed and then forces the same page can leave its ok row on disk without a body |
| Refetching.SameRequestTwiceCanTear | src/impact/ingest/github_client.py:331-345 | From the start, two workers that ask for the same page, neither forcing it and the first not clashing, can do the same |
| Refetching.SameRequestTwiceCanGarble | src/impact/ingest/github_client.py:214-222 | No crash is needed: the two can have the file open together, both succeed, and leave the ok row on disk over a mixture |
| Ledger.RawPageLedger.Load | src/impact/ingest/runs.py:42-50 | The rows are those saved, and the index finds the last row of each hash |
| Ledger.RawPageLedger.Record | src/impact/ingest/runs.py:59-66 | Updating through the index updates the shared row in the list, or appends: the contents become `Recorded` of the old ones |
| Ledger.RawPageLedger.Succeeded | src/impact/ingest/runs.py:55-57 | True exactly when the row of the hash is ok |
| Ledger.RawPageLedger.Flush | src/impact/ingest/runs.py:68-69 | What is saved is exactly the list of rows |
| Ledger.RecordedLookup | src/impact/ingest/runs.py:59-66 | Recording changes the lookup of its own hash to the new row and of no other |
| Ledger.RecordedKeepsOneRowPerHash | src/impact/ingest/runs.py:59-66 | Recording never gives a hash a second row |
| PropagationProofs.WitnessChain | src/impact2/analytics/propagation.py:260-342 | Every adoption at depth d has a chain of d import hops from a source, strictly rising merge times, distinct PRs outside the episode, and a contribution equal to the source weight times the decay factors |
| PropagationProofs.ContributionBounded | src/impact2/analytics/propagation.py:270-275 | No contribution exceeds the weight of some source of the episode |
| PropagationProofs.BooksBalance | src/impact2/analytics/propagation.py:274-277 | Events equal distinct visited non-member PRs, depths used are exactly 1 to the deepest, and the histogram sums to the events |
| PropagationProofs.EventsWithinBudget | src/impact2/analytics/propagation.py:322-328 | The walk never records more than max(1, budget) events |
| PropagationProofs.WalkMissesNothing | src/impact2/analytics/propagation.py:262-342 | Unless truncation is reported, every merged PR that touches an importer of an expanded path strictly after it became available was counted or is a member |
| PropagationProofs.BeamSize | src/impact2/analytics/propagation.py:334-341 | The beam keeps as many paths as the cap allows |
| PropagationProofs.BeamKeepsStrongest | src/impact2/analytics/propagation.py:334-341 | No dropped path carries more weight than a kept one, nor as much with a smaller name |
| Propagation.AdoptersExact | src/impact2/analytics/propagation.py:186-203 | The adopter list holds exactly the merged touches of importers, earlier merges first, then by PR and by path |
| PropagationAnalyzer.Analyzer.AdoptersOf | src/impact2/analytics/propagation.py:186-203 | The memoised list equals the recomputed one, and the cache stays right |
| PropagationAnalyzer.Analyzer.ExamineAdopters | src/impact2/analytics/propagation.py:265-323 | The inner loop with its early exit refines `Examine`, aggregates included |
| PropagationAnalyzer.Analyzer.ExpandFrontier | src/impact2/analytics/propagation.py:262-325 | The middle loop with its early exit refines `ExpandAll` |
| PropagationAnalyzer.Analyzer.OneGeneration | src/impact2/analytics/propagation.py:260-342 | One depth, with budget, dead end and beam, refines `NextRound` |
| PropagationAnalyzer.Analyzer.WalkGenerations | src/impact2/analytics/propagation.py:254-342 | The whole loop computes the walk that the lemmas are about, and its counters are the tallies of the walk's log |
| PropagationAnalyzer.Analyzer.CutToBeam | src/impact2/analytics/propagation.py:334-341 | Sorting and slicing keeps exactly the strongest paths |
| PropagationAnalyzer.Analyzer.SummariseWalk | src/impact2/analytics/propagation.py:391-415 | The summary's counts, masses and persistence are those of the events |
| PropagationAnalyzer.RecentExact | src/impact2/analytics/propagation.py:286-290 | The recency test differs from the plain window test exactly for an adoption at the end of the window (with a window below a billion days), and adoptions after the window count |
| PropagationAnalyzer.Analyzer.Propagate | src/impact2/analytics/propagation.py:220-353 | The files are the strongest sources of the episode; recorded edges and summary are those of the specified walk from them, and empty without files |
| EpisodeSources.Collect | src/impact2/analytics/propagation.py:140-183 | Each path once, with the first of its strongest offers, heaviest first; a path that is left out is no heavier than any kept one, of which there are then as many as allowed |
| EpisodeSources.OffersExact | src/impact2/analytics/propagation.py:145-175 | An offer is exactly what an eligible row of a PR of the episode says: substantive, named and no hub, with its PR's merge time and its damped base weight |
| PropagationAnalyzer.FirstFrontierExact | src/impact2/analytics/propagation.py:254-256 | The first frontier holds exactly the files' paths, each with its own weight, available from its own merge time and from the episode's end only if it has none |
| PropagationAnalyzer.EpisodeMissesNothing | src/impact2/analytics/propagation.py:254-342 | Unless truncation is reported, every merged PR that touches an importer of a file of the episode strictly after that file's own time is counted or is a member |
| PropagationAnalyzer.ChainsStartAtFiles | src/impact2/analytics/propagation.py:254-275 | Every adoption of the first generation starts at a file of the episode, with its weight and strictly after its time |
| PropagationAnalyzer.SummaryBalances | src/impact2/analytics/propagation.py:391-404 | Adoption events equal the distinct non-member PRs and the histogram sum; histogram keys are exactly 1 to the maximum depth; records and reach never exceed events; the capped mass respects its cap; the latest adoption is one of the events' and none is later |
| Glob.GlobToRegex | src/impact/normalize/paths.py:44-87 | The loop that rewrites its own output emits exactly the pieces of the look-ahead definition |
| Glob.CompilerPreservesMeaning | src/impact/normalize/paths.py:51-87 | For every class-free pattern and newline-free text, the emitted pieces match exactly what the stated glob language denotes |
| Glob.NewlineFreeAccepts | src/impact/normalize/paths.py:44-87 | The same for the anchored expression |
| Glob.TrailingNewlineIsAccepted | src/impact/normalize/paths.py:87-87 | For every newline-free text, the pattern with one `?` per non-slash accepts the text followed by a newline, which it does not denote |
| Glob.AgreementExact | src/impact/normalize/paths.py:44-87 | On a text, acceptance and the glob language agree on every class-free pattern if and only if the text has no newline |
| Glob.MatchesItself | src/impact/normalize/paths.py:51-87 | Every pattern denotes itself as a literal path |
| Glob.FallbackIsRedundant | src/impact/normalize/paths.py:90-97 | The directory fallback accepts nothing that the compiled form of a class-free pattern rejects |
| Glob.LiteralDirectoryMeaning | src/impact/normalize/paths.py:44-87 | A wildcard-free directory pattern covers that directory and its subtree and nothing else |
| Glob.SingleStarsKeepDepth | src/impact/normalize/paths.py:51-87 | A pattern without globstars matches only paths with as many slashes |
| Glob.SegmentMeaning | src/impact/normalize/paths.py:44-87 | If every globstar of the pattern is a whole segment and it does not end in two or more of them after another segment, then read segment by segment a globstar is zero or more whole segments |
| Glob.SegmentReadingExact | src/impact/normalize/paths.py:44-87 | For class-free patterns without a newline whose globstars are all whole segments: the segment reading holds on every newline-free path if and only if the pattern does not end in two or more globstars after another segment |
| GitStream.IterCommitFiles | src/impact/ingest/git_source.py:390-464 | The index-jumping loop with its pending table computes `Parsed` of the tokens |
| GitPrinter.RoundTrip | src/impact/ingest/git_source.py:348-464 | For every list of well-formed commits, parsing the printed stream returns each file once, in order, with status and counts merged |
| GitPrinter.FileAt | src/impact/ingest/git_source.py:414-458 | Field by field what is read for each file of each commit: a blob is missing exactly when its printed id is all zeros and is that id otherwise, paths are missing only for additions and deletions, counts only for binary files |
| GitPaths.PlainPathExact | src/impact/ingest/git_source.py:393-456 | For every list of commits as git prints them, where no path of newlines only is a token again after its counts: the log is read back whole if and only if no plain path holds the record separator or ends in a newline |
| GitPaths.EchoedPathSurvives | src/impact/ingest/git_source.py:443-452 | Why that proviso is needed: followed by an empty token and its own path, a path of newlines only is read back |
| GitPrinter.ReadRaw | src/impact/ingest/git_source.py:407-441 | A printed raw record is consumed whole, rename or not, and updates exactly its own entry |
| GitPrinter.ReadCounts | src/impact/ingest/git_source.py:431-458 | A printed numstat record that is not misread is consumed whole and merges into the entry of its path, less trailing newlines |
| Lexers.StripComments | src/impact/graph/ts_imports.py:53-93 | The scanner computes the automaton's blanked text |
| Lexers.BlankingIsSafe | src/impact/graph/ts_imports.py:53-93 | Length and newlines stay, everything outside comments stays, everything else in comments becomes a space, and blanking twice is blanking once |
| Lexers.StripJsoncComments | src/impact/graph/ts_imports.py:121-151 | The comment loop computes the automaton's text without comments |
| Lexers.RemovingIsSafe | src/impact/graph/ts_imports.py:121-151 | What is left is exactly the text outside comments, and removing twice is removing once |
| Json.CanonicalJsonInjective | src/impact2/ids.py:37-62 | Two values have the same canonical text only if they are equal |
| JsonReader.CanonicalJsonReadsBack | src/impact2/ids.py:59-62 | A reader of JSON by RFC 8259 reads every canonical text back as its value, to the end |
| Json.Unambiguous | src/impact2/ids.py:59-62 | No canonical text is a prefix of another with different continuation: equal continuations of two texts force equal values and equal rests |
| Ids.EpisodeIdentity | src/impact2/ids.py:115-129 | Two PR sets have the same episode pre-image if and only if they are equal |
| Ids.EpisodeRootIsSmallest | src/impact2/ids.py:115-129 | The number in the readable id is the smallest member |
| Ids.ClaimIdentity | src/impact2/ids.py:191-199 | Two claims have the same pre-image if and only if text, subject and evidence multiset are equal |
| Ids.ContentIdentity | src/impact2/ids.py:80-109 | Two tables feed the digest the same stream if and only if they hold the same rows, in any order, outside the excluded columns |
| Ids.DroppedExactly | src/impact2/ids.py:83-85 | Two rows count as the same exactly if they agree on every column that is not excluded |
| Ids.ContentHashInput | src/impact2/ids.py:80-109 | The sorting and feeding loop produces that stream |
| Episodes.DisjointSets.Find | src/impact/features/episodes.py:206-211 | Path halving keeps every representative and returns the one of its argument |
| Episodes.DisjointSets.Union | src/impact/features/episodes.py:213-217 | Exactly the two classes are merged, under the smaller representative |
| Episodes.SameRepIffConnected | src/impact/features/episodes.py:204-232 | Two numbers have the same representative if and only if accepted edges connect them |
| Episodes.RootsAreSmallest | src/impact/features/episodes.py:213-217 | Representatives are exactly the smallest members of the classes |
| Episodes.ReadEdges | src/impact/features/episodes.py:219-232 | After the edge loop the forest represents the connectivity of the accepted edges |
| Episodes.Group | src/impact/features/episodes.py:234-236 | Grouping by `find` gives each root its whole class, whatever `find` rewires meanwhile |
| Episodes.BuildEpisodes | src/impact/features/episodes.py:198-260 | The result is the reference answer, defined by paths of accepted edges |
| Episodes.EpisodesAreClasses | src/impact/features/episodes.py:234-260 | Rows are exactly the classes of two or more, disjoint, in order of their smallest member, which comes first in each |
| Episodes.EpisodesOrderFree | src/impact/features/episodes.py:198-260 | The episodes do not depend on edge order or repetition |
| Episodes.StrongestEdges | src/impact/features/episodes.py:166-180 | One edge per key, the first of the strongest ones, sorted by source, type and target |
| Episodes.StrongestIsKept | src/impact/features/episodes.py:167-177 | The edge kept for a claim is strong if any is, otherwise medium if any is, and the first of its strength |
| Episodes.EdgeOrder | src/impact/features/episodes.py:178-181 | The kept edges go by source, then type, then target, a missing one as 0 |
| Episodes.StrongestEdgesSuffice | src/impact/features/episodes.py:166-180 | Building episodes from the reduced table gives the same episodes as from all edges |
| SemanticIndex.BuildIndex | src/impact2/graph/semantic.py:68-112 | Frequencies, vectors and posting lists are those of the documents |
| SemanticIndex.MaxDfExact | src/impact2/graph/semantic.py:87-87 | The pruning limit is the whole part of the ratio of documents, and never below two |
| SemanticIndex.ComputeSimilarity | src/impact2/graph/semantic.py:114-120 | The loop over the shorter vector computes `Similarity` |
| SemanticIndex.SimilarityBounded | src/impact2/graph/semantic.py:114-120 | Similarity of unit vectors is symmetric, lies in [0, 1], and is positive only with a shared token |
| SemanticIndex.VectorsAreUnit | src/impact2/graph/semantic.py:90-105 | If every count from 1 and every document frequency from 2 up to the number of documents has a positive weight, every vector of the index is empty or has length one |
| SemanticIndex.PostingLength | src/impact2/graph/semantic.py:84-112 | A posting list is as long as its token's document frequency, hence within the pruning limit |
| SemanticIndex.FindCandidates | src/impact2/graph/semantic.py:122-136 | The scan returns the union of the unskipped posting lists, without the document itself |
| SemanticIndex.CandidatesExact | src/impact2/graph/semantic.py:122-136 | A document is a candidate if and only if it shares a token whose list is not skipped |
| SemanticIndex.SimilarAreCandidates | src/impact2/graph/semantic.py:107-136 | When the pruning limit is within the posting limit, every pair with non-zero similarity is a candidate pair |
| SemanticEdges.BuildSemanticEdges | src/impact2/graph/semantic.py:185-243 | The loops emit exactly the edges of the turn-by-turn specification |
| SemanticEdges.EveryEdgeIsSoundAndSingle | src/impact2/graph/semantic.py:188-243 | Each pair is emitted at most once, from a candidate whose known dates are at most the limit apart, that shares a component where required, and whose similarity, which the edge carries, reaches the threshold |
| SemanticEdges.AbsentPairWasCrowdedOut | src/impact2/graph/semantic.py:206-211 | A candidate pair that passes these tests is absent only if both its PRs filled their caps with partners that score at least as high as the other and, at the same score, have no larger number |
| SemanticEdges.BestFirst | src/impact2/graph/semantic.py:206-207 | Within a turn higher scores come first, and the smaller number at the same score |
| SemanticEdges.SameAsAllPairs | src/impact2/graph/semantic.py:185-243 | When no list is skipped, the threshold is positive and the cap cannot bind, the emitted pairs are exactly the all-pairs answer |
| Discovery.SearchSlice | src/impact/ingest/github_source.py:90-160 | Bisection with paging terminates and returns, day by day, everything up to the cap |
| Discovery.BisectionExact | src/impact/ingest/github_source.py:116-134 | Every item of the window is returned exactly once if and only if no single day exceeds the cap; otherwise only overflow is missing |
| Discovery.DateSlices | src/impact/ingest/github_source.py:71-82 | The slices tile the window without gap or overlap, all but the last of full length |
| Discovery.DiscoverCohort | src/impact/ingest/github_source.py:164-189 | Each slice of the window contributes its shard if it is completed and what searching it reaches otherwise, and ends up completed; other completed shards stay |
| Discovery.InterruptionsAreHonest | src/impact/ingest/github_source.py:183-189 | Stopped at any point, also between writing a shard and saving the checkpoint, every completed shard is what searching its slice reaches |
| Discovery.ResumedDiscoveryExact | src/impact/ingest/github_source.py:176-189 | Resumed from such files, the window comes back exactly once if and only if no single day exceeds the cap, as without interruption |
| Discovery.FinishedWindowIsFrozen | src/impact/ingest/github_source.py:178-180 | A finished window returns the nodes of the run that finished it, whatever the server holds later |
| Batches.NumberBuckets | src/impact/ingest/github_source.py:47-63 | The filling and sorting loops give one sorted batch per key, in key order |
| Batches.BatchAt | src/impact/ingest/github_source.py:47-63 | Each batch holds each number of its key as often as it occurs, and no other |
| Batches.EveryNumberHasABatch | src/impact/ingest/github_source.py:47-63 | No number is lost |
| Batches.BatchIsContentStable | src/impact/ingest/github_source.py:50-58 | A batch depends only on the numbers in its bucket |
| Batches.AddedNumbersStayInTheirBuckets | src/impact/ingest/github_source.py:50-58 | Adding numbers changes only the buckets they fall in |
| Batches.ShardsAreDistinct | src/impact/ingest/github_source.py:66-68 | Different buckets have different shard names |
| Batches.FetchCore | src/impact/ingest/github_source.py:254-298 | After dropping repeats, the batches are read from shards or fetched and stored, in any order of completion, and a failed request adds nothing |
| Batches.OrderDoesNotMatter | src/impact/ingest/github_client.py:178-208 | Any two orders of completion store the same shards and return the same numbers as often |
| Batches.FirstRunIsComplete | src/impact/ingest/github_source.py:254-298 | With nothing stored, exactly the requested numbers come back whose batch does not fail |
| Batches.RerunExact | src/impact/ingest/github_source.py:268-270 | After any sequence of earlier runs with any failures, a requested number comes back if and only if the first run that filled its bucket had it, or none did and its request does not fail now |
| Batches.WidenedBucketLosesNumber | src/impact/ingest/github_source.py:268-270 | The smallest instance of the loss |
| Actors.UnionFind.Find | src/impact/normalize/actors.py:46-53 | The representative is returned, every node on the climb ends up pointing at it, and no other parent changes |
| Actors.UnionFind.Union | src/impact/normalize/actors.py:55-60 | Exactly the two classes are merged, under the smaller key |
| Actors.ActorResolver.AddGithubActor | src/impact/normalize/actors.py:100-118 | The one record of the login is created or updated: the first display name stays, a later id or type name overwrites |
| Actors.ActorResolver.AddGitIdentity | src/impact/normalize/actors.py:120-154 | The one record of the address or name is created or updated, the address stored only if valid |
| Actors.AddsKeepEmailsAtHome | src/impact/normalize/actors.py:120-154 | Every add keeps each address on the record that its own key names |
| Actors.NoSharedEmail | src/impact/normalize/actors.py:158-179 | No two records share an address |
| Actors.ActorResolver.LinkByEmail | src/impact/normalize/actors.py:158-179 | In every reachable state nothing is reported as shared and no class changes |
| Actors.ActorResolver.Finalize | src/impact/normalize/actors.py:217-276 | One row per record in key order, each alone in its own cluster, so no cluster holds two logins; and the rows stand for exactly the people the adds were about |
| Actors.KeysAreApart | src/impact/hashing.py:51-66 | If digests of different texts differ, two keys are equal exactly for the same account, the same normalised address or name, or nobody |
| Actors.RecordsExact | src/impact/normalize/actors.py:100-154 | After any adds there is a record under a key exactly if some add is about its person |
| Actors.RecordHoldsExactly | src/impact/normalize/actors.py:141-148 | A record holds exactly the valid addresses, the names and the sources that the adds of its person bring |
| Actors.PeopleStayApart | src/impact/normalize/actors.py:120-154 | With such digests, two addresses on one record are the same address, or both name the same account |
| Actors.RowsTellPeopleApart | src/impact/normalize/actors.py:217-276 | With such digests, two adds have one row if they are about one person, and different rows otherwise |
| Actors.ActorResolver.ClusterOf | src/impact/normalize/actors.py:292-293 | Any key, known or not, is its own cluster |
| RenderPlan.FeaturedEpisodeIds | src/impact2/render_plan.py:120-140 | The four sources are collected in order, without repeats or missing ids |
| RenderPlan.FeaturedExact | src/impact2/render_plan.py:120-140 | A profile leads with each id of its four sources once, and with nothing else |
| RenderPlan.Listing | src/impact2/render_plan.py:143-163 | The four cut lists, without repeats |
| RenderPlan.ListingExact | src/impact2/render_plan.py:143-163 | A listing holds each id once: the first of what is featured, current, foundational, and of the rest that is not featured |
| RenderPlan.TopFiveExact | src/impact2/render_plan.py:189-196 | An available scenario contributes five of its positions, or all if fewer, in ascending order, and no position left out is before one of them |
| RenderPlan.EpisodePageOrder | src/impact2/render_plan.py:166-201 | The nested loops gather top fives first and then everyone ranked |
| RenderPlan.Build | src/impact2/render_plan.py:204-225 | The plan is the specified one |
| RenderPlan.CandidatesAreListed | src/impact2/render_plan.py:151-164 | Every candidate page, cut or not, is in somebody's listing |
| RenderPlan.EpisodeIdsAreTheListings | src/impact2/render_plan.py:214-225 | The shipped ids are exactly the known listed ones; the page cap never decides membership |
| RenderPlan.PagesAccountForCandidates | src/impact2/render_plan.py:217-224 | Pages are distinct, known and shipped, and with the truncated count they account for all candidates |
| RenderPlan.PlanIsAFixpoint | src/impact2/render_plan.py:204-225 | Rebuilding with only the plan's own ids as known gives the same plan |
| RenderPlan.EpisodeIdsGrowWithBudget | src/impact2/render_plan.py:151-164 | Raising any cap never drops a shipped id |
| RenderPlan.MorePagesOnlyAppend | src/impact2/render_plan.py:217-217 | Raising the page cap only appends pages |
| RenderPlan.PagesKeptWhenNothingIsTruncated | src/impact2/render_plan.py:179-187 | Raising the other caps keeps every page while nothing is truncated |
| PageGrowth.MoreFeaturedIsSafeExactly | src/impact2/render_plan.py:166-225 | Between two budgets with a larger `featured` cap, every page survives for all rankings, known episodes and page caps if and only if no engineer's profile overtakes another's between the caps: brings in an episode that neither profile places after one the other already shows |
| RenderPlan.MoreFeaturedCanDropAPage | src/impact2/render_plan.py:179-187 | With truncation a larger featured cap replaces one engineer's page by another's |
| Resample.ParticipantsForSample | src/impact2/pipeline.py:548-570 | The nested loops give one copy per drawn row, relabelled by its draw |
| Resample.DimensionsForSample | src/impact2/pipeline.py:572-593 | The loops add each alias's copies once |
| Resample.EpisodesForSample | src/impact2/pipeline.py:595-613 | The loops add each known episode's alias once |
| Resample.AliasInjective | src/impact2/pipeline.py:568-568 | An alias determines its episode and its draw |
| Resample.LabelRows | src/impact2/pipeline.py:572-613 | In any table, under a would-be alias there are afterwards its own rows and then, if some actor draws the known original that often, exactly one relabelled copy of the original's rows |
| Resample.OriginalRows | src/impact2/pipeline.py:572-613 | In any table nothing changes under an id that is no would-be alias |
| Resample.TablesStayJoined | src/impact2/pipeline.py:548-613 | Under the condition that `JoinExact` shows to be necessary, every resampled participant row is a relabelled original, finds its episode row, and finds exactly the original's dimension rows under its own label |
| Resample.PairsStayUnique | src/impact2/pipeline.py:548-570 | Under the condition that `UniquenessExact` shows to be necessary, no actor holds the same labelled episode twice |
| Resample.UniquenessExact | src/impact2/pipeline.py:548-570 | Any mapping of actors to drawn ids keeps the pairs unique if and only if no actor has both an episode and one whose id is a would-be alias of it |
| Resample.JoinExact | src/impact2/pipeline.py:548-613 | For any mapping of actors to drawn ids, as the three functions accept: every draw finds an episode row and exactly its dimension rows if and only if every participant's episode has a row, no dimension row sits under a would-be alias of it, and it is no would-be alias of an id that has dimension rows |
| Resample.AliasLikeIdCollides | src/impact2/pipeline.py:563-569 | Drawing an episode k times or more and then the one carrying its k-th alias gives two rows with one label |
| Bootstrap.EpisodesByActor | src/impact2/pipeline.py:539-546 | Each actor's pool is its contributing episodes in row order, and only actors with some have one |
| Bootstrap.CollectedPoolsAreFair | src/impact2/pipeline.py:539-546 | If no actor has two rows for an episode, each pool holds known episodes of its actor, each once |
| Bootstrap.DrawSample | src/impact2/rank/sensitivity.py:118-124 | Each actor draws as often as its pool is long, and only from it |
| Bootstrap.BootstrapJoinExact | src/impact2/rank/sensitivity.py:118-124 | Over the resamples that can be drawn: every draw finds an episode row and exactly its dimension rows if and only if every episode in a pool has a row, no dimension row sits under one of the aliases its pool is long enough to make, and it is no alias of an episode with dimension rows that somebody can draw that often beside it |
| Bootstrap.BootstrapUniqueExact | src/impact2/rank/sensitivity.py:118-124 | Over the resamples that can be drawn: no actor holds a labelled episode twice if and only if no pool of more than k holds both an episode and its k-th alias |
| Regression.NoteDeletions | src/impact/features/regression.py:79-95 | The loops compute the table folded over all touches |
| Regression.DeletedAtExact | src/impact/features/regression.py:79-95 | In merge order the table holds exactly the paths whose last delete has no later touch, with its time |
| Regression.TouchesInMergeOrder | src/impact/features/regression.py:82-95 | Visiting PRs in merge order is enough for that |
| Regression.GoneIsAlwaysRecorded | src/impact/features/regression.py:79-95 | In any order a path that is gone is recorded, with the right time |
| Regression.MergeOrderIsExact | src/impact/features/regression.py:79-95 | For given merge times in visiting order, the table is right about every path whatever the PRs touch if and only if the times never fall |
| Regression.WitnessIsWrong | src/impact/features/regression.py:94-95 | Any two times out of order give an input where a path added again stays recorded as deleted |
| Regression.Sweep | src/impact/features/regression.py:152-194 | The loop with its early `break` selects exactly what the two filters select |
| Regression.SweepIsExact | src/impact/features/regression.py:116-194 | The tiers hold exactly the fixes, reverts and performance changes merged strictly later within the horizon: linked if an issue or a flag is shared, otherwise proximate if enough code paths are, each in at most one |
| Regression.PathsExact | src/impact/features/regression.py:57-77 | The code paths are those of the named rows that are no noise, and the introduced ones those added |
| Regression.ExplicitExact | src/impact/features/regression.py:97-150 | The explicit signals are exactly the recorded revert, reapply and supersede edges and the later PRs titled as a revert of the same subject |
| Regression.ChurnTotals | src/impact/features/regression.py:196-216 | Churn buckets add up to the candidates |
| Regression.Attribute | src/impact/features/regression.py:196-216 | The counting loop computes the attribution |
| Regression.SurvivalFalls | src/impact/features/regression.py:218-242 | Survival lies in [0, 1], and where the longer checkpoint is measurable so is the shorter, with no smaller share |
| Regression.ExtraDeletionsOnlyLower | src/impact/features/regression.py:237-241 | Deletions recorded too many can only lower survival |
| Regression.ComputeRow | src/impact/features/regression.py:123-283 | A row has the specified signals, and its churn total is the sum of the three tiers |
| Regression.Compute | src/impact/features/regression.py:40-283 | One such row per PR in number order |
| Reach.Reachable | src/impact/graph/build.py:324-339 | The level-by-level search with its early exit finds exactly what a walk of at most the given depth reaches from a non-empty seed |
| Reach.NextLevel | src/impact/features/blast_radius.py:76-86 | Expanding only the newest level loses nothing |
| Reach.ReverseAdjacency | src/impact/graph/build.py:316-321 | Every edge is turned round, and no edge is made up |
| Reach.ReverseReachability | src/impact/features/blast_radius.py:76-87 | Reaching x from y over reversed edges is reaching y from x over the original ones, at every depth |
| Ownership.ResolveOwner | src/impact/normalize/components.py:222-245 | The answer is that of the innermost enclosing directory that has one, otherwise the last matching CODEOWNERS line |
| Ownership.EnclosesExactly | src/impact/normalize/components.py:225-226 | A directory encloses itself and exactly the paths below it, the root everything |
| Ownership.AnswerIsOnTheRest | src/impact/normalize/components.py:228-237 | A directory answers with its last rule pattern that matches the rest of the path below it, then with its defaults, then not at all |
| Ownership.NearestDecidesExactly | src/impact/normalize/components.py:222-237 | The nearest enclosing owners file decides if and only if it has a matching rule or defaults |
| Ownership.NearestIsPassedOver | src/impact/normalize/components.py:236-237 | An empty owners file does not keep the root's defaults from applying below it |
| Ownership.ScanRules | src/impact/normalize/components.py:229-233 | The nested loops find the last matching pattern over all rules |
| Ownership.LastMatchIsLast | src/impact/normalize/components.py:229-233 | That is a match with no later one, and none exactly when nothing matches |
| Ownership.InnermostIsUnique | src/impact/normalize/components.py:117-117 | Only one directory is innermost, so dictionary order does not matter |

## Left out

- Rounding: `round(..., 6)` and every other floating-point effect, in all modules.
- PropagationAnalyzer.Analyzer.SummariseWalk: does not model the summary's age, decay and survival fields, which are read off the sources and not off the walk.
- EpisodeSources.Collect: the damping and decay functions, the fan-in limit and the flags that make a row mechanical are inputs; how `percentile` finds the limit is not modelled.
- Client: HTTP, retries, back-off, rate-limit floors and `paginate`; a fetch is one step with any outcome. Reading a response file is one step.
- Ledger: writing JSON and the Parquet copy.
- Glob: bracket classes are copied as pieces but given no meaning; path normalisation and classification.
- GitStream: splitting the bytes at NUL and decoding; `\d` means the ASCII digits; commit ids.
- Lexers: the trailing-comma substitution that follows the JSONC comment loop, which is neither string-aware nor idempotent, and import extraction.
- Json: the conflations of `_canonicalise` (dates, sets, bytes, non-string keys, NaN and infinities as text); values are taken after it.
- Ids: SHA-256, UTF-8 encoding and the remaining, plainly concatenated identifiers.
- Episodes: how `build_edges` derives edges from references, flags and issues.
- SemanticIndex: tokenisation. The order in which candidate tokens are scanned does not affect the set and is arbitrary here.
- SemanticEdges: evidence text and guards of an edge.
- Discovery.DateSlices: slice lengths below one day are excluded, because the source's loop then never ends.
- Batches.NumberBuckets: a bucket size of zero is excluded, because the source then raises a division error.
- Discovery.SearchSlice: does not model a server whose contents change between requests, nor null nodes.
- Discovery.DiscoverCohort: one cohort at a time; how the nodes are merged into the index is not modelled.
- Batches.FetchCore: a node is its number, so the mark of an unresolvable one is not modelled; batches of one run touch different shards and are taken one after the other, in the order of completion.
- Actors.ActorResolver.Finalize: does not model bot and AI classification, the ambiguity texts built from it, and the summary counts.
- RenderPlan: claim and artifact collection for the included records; negative caps, where Python slices from the end.
- Regression: evidence texts, day distances, and the test-added flag.
- Reach: graph construction.
- Ownership: the pattern language of owners files and CODEOWNERS, product manifests, conventions, licence areas and agents files.
- Not modelled at all: text heuristics, review and rubric scoring, status and scenario decision trees, ranking, portfolio aggregation, the audit sampler, export, fixtures and the web front end.
