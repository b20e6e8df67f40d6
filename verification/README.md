# Obscurity Engine: verified models

A Dafny 4.11 model of the parts of the discovery service, and of its Python evaluation port,
that carry real invariants: ranking, two small concurrent protocols, candidate blending, three
limiters and four loop algorithms. Network answers, clocks, random parts and text functions
that depend on Unicode are inputs, so a theorem holds whatever they are. `dafny verify
dfyconfig.toml` verifies the project.

| file | what it models |
|---|---|
| `Ordering.dfy` | the stable sort and the string order that ranking relies on |
| `Scoring.dfy`, `Ranking.dfy` | scoring, sorting, deduplication, the genre quota, the cut at 25, dismissals |
| `Resolver.dfy` | claims, queue and respawned worker of the background name resolver |
| `Permit.dfy` | the shared MusicBrainz permit: waiting counter, low-priority yielding, pacer |
| `Candidates.dfy` | the fail-closed and fail-open arms, their race and their merge |
| `RateLimit.dfy`, `DeezerWindow.dfy` | the token bucket with idle sweeps; the sliding call window |
| `KeyPool.dfy` | key rotation, benching and the four-attempt request |
| `TierVariety.dfy`, `TwoHop.dfy` | tier promotion and two-hop expansion |
| `Snowball.dfy` | the breadth-first cohort snowball over several roots |
| `SplitCollab.dfy` | the splitter for credited artist names |

The two protocols are transition systems. An event is one shared-memory access, a run is any
sequence of enabled events, and results about runs hold for every interleaving, abort and
cancellation. Code that works step by step is a method or a class, proved against a function or
a relation whose consequences are the lemmas.

## What turned out false, and when it does hold

- Ranking does not ignore arrival order in general. `Scoring.TieCanShow` gives two entries of one
  artist credited to whichever seed answered first, `Scoring.CeilingCanFlip` a collaboration kept
  or dropped by the later of two arrivals. `Scoring.OrderIndependentIff` says exactly when order
  does not matter: no two different items tie at the head of a name, and whatever heads a name
  stays scored however strictly its collaborators' listener counts are read. Where namesakes agree
  about the ceiling this comes down to ties (`Scoring.OrderIndependentIffTiesHarmless`).
- Idle sweeps are invisible exactly when an idle bucket is sure to have refilled, or no call is
  ever allowed: `RateLimit.SweepInvisibleIff`. Under the same condition, and only then, the bound on
  allowed calls survives sweeping: `RateLimit.BoundHoldsIff`.
- The retry hint is not always the first moment a retry can succeed: a swept bucket starts out
  full. Earlier retries are denied in every run exactly when the hint is at most 600 s:
  `RateLimit.NoEarlyRetryIff`. A retry at the hint succeeds whatever was swept, if the wait fits in
  64 bits and no retry before it did: `RateLimit.RetryHintIsExact`.
- The comments on the MusicBrainz permit say blend work always goes first
  (`backend/src/listenbrainz.rs` 198-200 and 345-350). Reading the counter and trying the
  semaphore are two steps, so one low-priority call can be granted after a blend lookup has
  registered: `Permit.OneLowCallCanSlipIn`. `Permit.BlendGoesFirstIff` says exactly when none
  can, and `Permit.OneLowCallAtMost` bounds it at one. Once the lookup is in the semaphore's queue
  the comment is right: `Permit.QueuedGoesFirst`.
- The comment that a miss never overwrites an mbid (`backend/src/artist_meta.rs` 470-471) fails
  when the store cannot be read and then can be written: the database, unless the cache knows
  better, or the cache where there is no database, since a failed cache read counts as a miss
  (`backend/src/cache.rs` 214-233). `Resolver.MissLosesMbidIff` is the exact condition for an mbid
  in the store the resolver trusts, the database if there is one, and `Resolver.KnownMbidCanBeLost`
  a run from start-up that gets there in either configuration. An mbid that only reached the cache
  beside a database is lost under another condition: `Resolver.MissLosesCacheRowIff`.
- A comment says longer separators come first so that " feat. " wins over " feat "
  (`backend/src/split_veto.rs` 63-64). The order decides nothing, because no separator begins
  another one: `SplitCollab.TableOrderIsInvisible`.
- The display name of a blended candidate depends on the first arrival. It is settled exactly when
  Last.fm's lookups spell the candidate alike, if any of them offers it, and otherwise when
  ListenBrainz's do: `Candidates.BlendDisplaySettledIff`.

## Model

| member | source | states |
|---|---|---|
| Ordering.SortSorts | backend/src/pipeline/scoring.rs:272-276 | the stable sort yields a sorted rearrangement of its input |
| Ordering.SortIgnoresOrder | backend/src/pipeline/scoring.rs:272-276 | where no two different elements tie, the sorted list is the same for every input order |
| Ordering.StrLeIffFirstDifference | backend/src/pipeline/scoring.rs:275 | names are ordered by their first differing character, a beginning before what it begins |
| Ranking.HeaviestTag | backend/src/pipeline/scoring.rs:601-606 | of a non-empty tag list, the last of the heaviest tags |
| Ranking.PrimaryIsGenre | backend/src/pipeline/scoring.rs:601-608 | the primary genre used is the last of the heaviest tags, lower-cased, or "untagged", as told from tags and weights alone; there is exactly one |
| Ranking.DiverseFillsSlots | backend/src/pipeline/scoring.rs:595-612 | each genre fills exactly the smaller of three and its number of artists |
| Ranking.GreedyIsLongest | backend/src/pipeline/scoring.rs:595-612 | no selection within the genre quota is longer than the greedy one |
| Ranking.GreedyDominates | backend/src/pipeline/scoring.rs:486-505 | on a best-first list the i-th kept artist scores at least as much as the i-th of any selection within the quota |
| Ranking.GreedyCutIsOptimal | backend/src/pipeline/scoring.rs:494-505 | no choice of at most cap artists within the quota, in any order, has a larger total score than the first cap kept |
| Ranking.DiverseIsASelection | backend/src/pipeline/scoring.rs:595-612 | the kept list is drawn from the input in order and itself within the quota |
| Ranking.DiverseBestFirst | backend/src/pipeline/scoring.rs:595-612 | the filter keeps a best-first list best first |
| Ranking.EnforceDiversity | backend/src/pipeline/scoring.rs:595-612 | the pass with one slot counter per genre keeps artists in order, at most three of any primary genre, and drops only artists with three of their own primary genre kept before them; it is the greedy filter |
| Ranking.UpliftLifts | backend/src/pipeline/scoring.rs:478-483 | genre fit is the sum of the tags' profile weights, one at most, and the composite grows by half its product with it |
| Ranking.LiftScores | backend/src/pipeline/scoring.rs:478-484 | every score is lifted by its own genre fit, in place, nothing else moves |
| Ranking.RankingPromises | backend/src/pipeline/scoring.rs:472-505 | after uplift and re-sort the result is best first, within the quota, and its first 25 have the largest total any 25 within the quota can have |
| Ranking.PostProcess | backend/src/pipeline/scoring.rs:472-505 | response and reserve, cut at 25, are the lifted artists sorted by composite then name and diversified as above, each step told without the code's functions; nothing lost |
| Ranking.ApplyDismissals | backend/src/api.rs:512-536 | shows undismissed artists in ranking order, no more than before, and leaves one out only if it is dismissed or that many stand before it |
| Ranking.DismissalKeepsRanking | backend/src/api.rs:508-536 | what is shown stays best first, within the quota and undismissed, and is short only when the reserve is exhausted |
| Scoring.ScoreIsExact | backend/src/pipeline/scoring.rs:355-463 | a candidate is refused exactly for its plays, as a seed, over 25000 listeners or for a collaborator over them; otherwise its item holds conviction 100 (S + b) rounded down, S the sum over the set of weighted recommenders, three at most each, b the bonus exactly when tags or tag graph confirm it, and composite times listeners is conviction times plays |
| Scoring.ScoreIsUnique | backend/src/pipeline/scoring.rs:402-463 | those conditions leave one item possible, seeds listed heaviest first and by name |
| Scoring.RecommendersAreASet | backend/src/pipeline/scoring.rs:402-415 | order and repetition of recommenders never reach the score |
| Scoring.DedupScoredByName | backend/src/pipeline/scoring.rs:289-292 | the pass with a seen-set keeps the first entry of each normalized name |
| Scoring.DedupKeepsLeaders | backend/src/pipeline/scoring.rs:278-292 | of a sorted list every name keeps exactly one entry, one nothing of that name precedes |
| Scoring.ScoreAll | backend/src/pipeline/scoring.rs:234-283 | the list holds just scores of eligible candidates, by composite then name, one per normalized name, none of that name ranking before it; the last candidate of a name decides a collaborator's ceiling |
| Scoring.RankedListRanks | backend/src/pipeline/scoring.rs:234-292 | the same of the ranked-list function, for every arrival order |
| Scoring.RankedListIsReady | backend/src/pipeline/scoring.rs:234-283 | the ranked list is sorted, has distinct names and no negative score, which is what the final ranking needs |
| Scoring.ScoredBetween | backend/src/pipeline/scoring.rs:244-268 | what any arrival order scores lies between the certain items and the possible ones |
| Scoring.SettledLeadersSuffice | backend/src/pipeline/scoring.rs:234-292 | if ties at the head of a name are harmless and every head is certain, every arrival order gives one list |
| Scoring.LeaderCanWin | backend/src/pipeline/scoring.rs:234-292 | each leader of the possible items is listed in some arrival order |
| Scoring.OrderIndependentIff | backend/src/pipeline/scoring.rs:234-292 | for every input, arrival order does not matter exactly when ties at the head of a name are harmless and every head is certain |
| Scoring.TieCanShow | backend/src/pipeline/scoring.rs:272-282 | a concrete input whose result depends on arrival order through a tie |
| Scoring.CeilingCanFlip | backend/src/pipeline/scoring.rs:244-246 | a concrete input whose result depends on arrival order through the listener map |
| Scoring.CapIsAFunctionOfTheMap | backend/src/pipeline/scoring.rs:178-188 | which 600 candidates survive depends on the map alone; survivors have more recommenders than everything dropped, or as many and an earlier key |
| Resolver.RunKeepsInv | backend/src/artist_meta.rs:445-540 | every run keeps: in-flight keys are the disjoint union of claimed, queued and resolving keys, without repeats, queue within 256 |
| Resolver.ResolverIsSafe | backend/src/artist_meta.rs:353-359 | the same in every state reachable from start-up |
| Resolver.WorkRunsOut | backend/src/artist_meta.rs:445-489 | without new claims, productive steps plus remaining debt never exceed the initial debt |
| Resolver.ClaimsNeverStick | backend/src/artist_meta.rs:524-535 | debt is zero exactly when nothing is in flight; otherwise a step that is no abort can be taken, at latest after a poll revives the worker |
| Resolver.EveryClaimIsReleased | backend/src/artist_meta.rs:218-224 | from any reachable state, once claims stop, every claim is released after as many rounds as steps are owed, if each round takes some productive step while anything is in flight; whatever lookups answer, with aborts and a full queue too |
| Resolver.CanFinish | backend/src/artist_meta.rs:445-507 | from every state with the invariant a run without claims or aborts empties the in-flight set |
| Resolver.BacklogFalls | backend/src/artist_meta.rs:454-489 | queue length plus busy flag drops by one with each finished or aborted resolution, and otherwise changes only by a send |
| Resolver.MissLosesMbidIff | backend/src/artist_meta.rs:469-483 | a miss blanks an mbid known to the trusted store exactly when that store fails the read but takes the write and, with a database, the cache does not answer with the mbid |
| Resolver.MissLosesCacheRowIff | backend/src/artist_meta.rs:469-483 | with a database, a miss blanks an mbid of the cache exactly when the database fails the write, the cache takes it, and the read found the mbid in neither: the database answered without it, or both reads failed |
| Resolver.KnownMbidCanBeLost | backend/src/artist_meta.rs:445-489 | with a database or without, a run from start-up stores any name's mbid and later blanks it |
| Resolver.MbidSurvives | backend/src/artist_meta.rs:469-483 | while reads of the trusted store succeed, a stored mbid survives every run |
| Resolver.KnownStaysKnown | backend/src/artist_meta.rs:445-489 | so in every run from start-up: an mbid known at some point stays known |
| Resolver.RowsAreExplained | backend/src/artist_meta.rs:466-485 | from start-up, a row holds an mbid only if a lookup of its key found that mbid, and is blank only if one missed |
| Resolver.TransientStoresNothing | backend/src/artist_meta.rs:484 | from a lookup that failed for now until its task finishes or is aborted neither store changes, whatever interleaves |
| Resolver.QueueIsFifo | backend/src/artist_meta.rs:456-459 | names begun plus names still queued are names queued at first plus names entered, in order, across aborts and respawns |
| Resolver.EnqueuedKeepsInv | backend/src/artist_meta.rs:495-507 | the uninterrupted claim-send-release sequence keeps the invariant |
| Resolver.ArtistMetaService.ClaimKey | backend/src/artist_meta.rs:353-355 | claims a key and says whether it was new |
| Resolver.ArtistMetaService.ReleaseKey | backend/src/artist_meta.rs:357-359 | removes just that key |
| Resolver.ArtistMetaService.StartWorker | backend/src/artist_meta.rs:445-452 | spawns exactly when the kept task is dead |
| Resolver.ArtistMetaService.EnqueueBackground | backend/src/artist_meta.rs:495-507 | queues exactly an unclaimed name with room in the queue; otherwise queue and claims are as before, and a worker is alive |
| Resolver.ArtistMetaService.Snapshot | backend/src/artist_meta.rs:510-540 | each name is answered from its own row, pending are those without a row or with an empty one thirty days old, in the order asked; each is in flight or the queue is full, a worker is alive, and nothing else was claimed or queued |
| Resolver.PollAnswersAll | backend/src/artist_meta.rs:516-540 | the reply meets that description for all names and rows |
| Permit.RunKeepsInvariant | backend/src/listenbrainz.rs:124-138 | every run, cancellations included, keeps the counter exact, one permit, and exits spaced |
| Permit.GateIsSafe | backend/src/listenbrainz.rs:301-311 | in every reachable state the counter equals the live queued lookups, at most one caller holds the permit, it is free exactly when nobody holds it, exits are 1050 ms apart |
| Permit.LeavesPacerIff | backend/src/listenbrainz.rs:164-173 | in every reachable state a caller in the pacer may leave exactly when no exit was recorded or the last was 1050 ms ago: no exit too early, no sleep too long |
| Permit.GivesUpIff | backend/src/listenbrainz.rs:351-369 | a low-priority caller gives up exactly when turned away with its whole wait over, counted from its start, and tries again exactly when turned away before |
| Permit.KindIsKept | backend/src/listenbrainz.rs:301-369 | a caller stays blend or low priority through every step |
| Permit.LowCallsYield | backend/src/listenbrainz.rs:351-369 | while a blend lookup waits, low-priority grants are at most the callers that had already read zero |
| Permit.OneLowCallAtMost | backend/src/listenbrainz.rs:345-369 | with one low-priority caller at most one such grant falls between registering and acquiring |
| Permit.OneLowCallCanSlipIn | backend/src/listenbrainz.rs:358-363 | a concrete run in which that one grant happens |
| Permit.NobodySlipsInIff | backend/src/listenbrainz.rs:301-311 | before a lookup joins the queue, no low-priority call gets ahead of it in any run exactly when no caller stands between reading zero and trying |
| Permit.QueuedGoesFirst | backend/src/listenbrainz.rs:306-309 | once a lookup is queued or has the permit, no low-priority call gets ahead of it in any run |
| Permit.WaitIsBounded | backend/src/listenbrainz.rs:306-309 | while a queued lookup still waits, the permit has been given up at most as often as lookups stood before it, and somebody holds it |
| Permit.BlendGoesFirstIff | backend/src/listenbrainz.rs:301-309 | a lookup registering in any reachable state goes before all low-priority calls exactly under that condition |
| Permit.Pacer.Wait | backend/src/listenbrainz.rs:164-173 | leaves at the later of now and last plus 1050 ms, never sooner, and records it |
| Candidates.BuildLastfmProv | backend/src/pipeline/candidates.rs:247-289 | the loop over arrivals: the first fatal answer's error, or every credit |
| Candidates.LastfmOutcomeIs | backend/src/pipeline/candidates.rs:265-289 | the arm fails exactly when some arrival is transient or a task died, and otherwise holds all credits |
| Candidates.OutcomeReports | backend/src/pipeline/candidates.rs:265-289 | the error names the first transient lookup or dead task of the run |
| Candidates.BuildListenbrainzProv | backend/src/pipeline/candidates.rs:305-359 | gathers exactly the lookups completed by the deadline; degraded exactly when some lookup is not |
| Candidates.RaceArms | backend/src/pipeline/candidates.rs:211-242 | for every interleaving of both arms' lookups the outcome is that of running the arms one after the other: the first fatal Last.fm error, or Last.fm's credits with what ListenBrainz had in time |
| Candidates.MergeProv | backend/src/pipeline/candidates.rs:114-127 | the in-place merge is the union: base display wins, per-seed flags are or-ed |
| Candidates.GatherCredits | backend/src/pipeline/candidates.rs:265-287 | a seed is credited to a key exactly when its lookup lists a name of that key |
| Candidates.BackedIff | backend/src/pipeline/candidates.rs:265-358 | a seed is credited exactly when an arrival of its lookup, ListenBrainz's within the deadline, lists the candidate |
| Candidates.BlendIsWhatWasRecommended | backend/src/pipeline/candidates.rs:103-127 | the merged map holds exactly the recommendations of both sources, a shared seed once with both flags |
| Candidates.CreditsIgnoreOrder | backend/src/pipeline/candidates.rs:265-358 | every completion order on both sides gives the same keys, seeds and flags |
| Candidates.DisplaySettledIffOneSpelling | backend/src/pipeline/candidates.rs:268-274 | within one arm the display name is the same for all orders exactly when its lookups spell the key alike |
| Candidates.BlendDisplaySettledIff | backend/src/pipeline/candidates.rs:114-127 | the merged display is settled exactly when Last.fm's lookups agree, if any offers the key, and otherwise when ListenBrainz's do |
| Candidates.ProvToMap | backend/src/pipeline/candidates.rs:102-109 | each candidate keeps its display and lists each recommending seed once |
| Candidates.BuildBlended | backend/src/pipeline/candidates.rs:152-191 | for any interleaving: an error exactly on a failed Last.fm lookup, reporting the first; otherwise each candidate that some arrival in time lists, with exactly the seeds listing it, each once, under the first spelling of Last.fm's first arrival that lists it, or else of ListenBrainz's |
| Candidates.InterleavingIsInvisible | backend/src/pipeline/candidates.rs:208-242 | runs of the same lookups, the same in time, fail alike and credit alike |
| RateLimit.RateLimiter.CheckAt | backend/src/ratelimit.rs:60-80 | refills the key's bucket for the time passed, none if the clock reads earlier, up to capacity, a new key full; allows and takes a token exactly when a whole one is there; no other bucket changes |
| RateLimit.RateLimiter.Sweep | backend/src/ratelimit.rs:83-87 | keeps exactly the buckets touched less than 600 s ago, as they are |
| RateLimit.AllowedInInterval | backend/src/ratelimit.rs:60-80 | allowed calls of a key in an interval are at most capacity plus refill times its length, in any run whose sweeps are harmless |
| RateLimit.BoundHoldsIff | backend/src/ratelimit.rs:60-87 | from an empty table the bound holds for all runs, sweeps included, exactly when capacity is below one token or refills within 600 s, which is exactly when sweeps are invisible |
| RateLimit.SweptRunsAgree | backend/src/ratelimit.rs:83-87 | from related tables, a run with sweeps answers as the run without them, hints included |
| RateLimit.SweepInvisibleIff | backend/src/ratelimit.rs:60-87 | sweeps are invisible exactly when capacity is below one token or refills within 600 s |
| RateLimit.SlowRefillShows | backend/src/ratelimit.rs:83-87 | a slower limiter has a run whose answers change when swept |
| RateLimit.NoRefillShows | backend/src/ratelimit.rs:83-87 | so has one that never refills |
| RateLimit.DeniedPollsAreFree | backend/src/ratelimit.rs:60-80 | denied calls, other keys' calls and harmless sweeps leave a key's later level unchanged, in any run |
| RateLimit.LowLevelDenies | backend/src/ratelimit.rs:71-80 | as long as a key's level cannot reach one token, all its calls in the run are denied |
| RateLimit.HintIsTheDeficit | backend/src/ratelimit.rs:74-78 | the hint is the least whole number of seconds, at least one, whose refill covers the deficit, and the largest 64-bit number where none that fits does |
| RateLimit.RetryHintIsExact | backend/src/ratelimit.rs:60-80 | after a denial with hint r, amid any other calls and sweeps, retries up to r - 1 seconds are all denied if r is at most 600 or the sweeps are harmless; after denied retries the one at r is allowed when the wait fits in 64 bits, and with harmless sweeps only then |
| RateLimit.NoEarlyRetryIff | backend/src/ratelimit.rs:60-87 | retries up to r - 1 seconds are denied in every run, sweeps included, exactly when r is at most 600 |
| RateLimit.ProgramHintIsExact | backend/src/ratelimit.rs:60-87 | with a bucket that refills before it is idle, as in both limiters of the program, the hint is exact without either proviso |
| RateLimit.ProgramSettings | backend/src/artist_meta.rs:252 | 60 tokens at one or at half a token a second refill before they are idle |
| DeezerWindow.CallWindow.Prune | backend/src/deezer.rs:229-231 | popping expired entries off the front leaves exactly the recent ones |
| DeezerWindow.CallWindow.TakeSlot | backend/src/deezer.rs:226-237 | the queue stays the grant history filtered to five seconds; grants exactly when fewer than 40 lie in it |
| DeezerWindow.NoWindowOverflows | backend/src/deezer.rs:226-237 | no half-open five-second window of any run holds more than 40 grants |
| DeezerWindow.RefusedOnlyWhenFull | backend/src/deezer.rs:232-234 | a refusal means 40 grants lie in the five seconds up to it |
| KeyPool.AdmitKeepsDistinct | backend/src/lastfm.rs:336-356 | admitted keys are non-blank and distinct and follow those already there |
| KeyPool.AdmitAddsNewKeys | backend/src/lastfm.rs:336-356 | admission adds exactly the new usable keys the lines name, at their first lines |
| KeyPool.Client.WithKeys | backend/src/lastfm.rs:329-369 | owner keys, then contributed ones: each the non-blank trimmed lines in order of first appearance, without comments and known keys in the second part; none benched |
| KeyPool.Client.AddKey | backend/src/lastfm.rs:374-392 | appends a new key and reports the size; a blank or known key changes nothing |
| KeyPool.RoundFindsUnbenched | backend/src/lastfm.rs:417-425 | a round finds an unbenched key exactly when one exists |
| KeyPool.RoundVisitsEachOnce | backend/src/lastfm.rs:410-428 | with nobody benched, as many successive picks as there are keys return the pool rotated to the cursor, each key once |
| KeyPool.Client.PickKey | backend/src/lastfm.rs:410-428 | which key, how far the cursor moves, and that a benched key is returned only when all are |
| KeyPool.Client.Bench | backend/src/lastfm.rs:430-434 | benches that key until 20 s later and no other |
| KeyPool.Client.GetWithRetry | backend/src/lastfm.rs:447-531 | success with the text of the first final answer if that is a body without a 4xx or with an error code; permanent if it is a bare or lost 4xx; transient exactly if no key or no final answer, final being all but network errors, 5xx, bodies lost without a 4xx and codes 8, 11, 16, 29; attempts, pauses of 1, 2 and 4 s plus jitter, keys used and benching |
| KeyPool.AnswerIsUnique | backend/src/lastfm.rs:447-531 | no four answers admit two replies |
| KeyPool.AttemptsBench | backend/src/lastfm.rs:449-518 | the rotation's effect on the pool told from the keys it used |
| KeyPool.OnlyTrippedKeysAreBenched | backend/src/lastfm.rs:471-475 | exactly the keys answering code 29 are benched, until 20 s after their last such answer |
| KeyPool.BackoffBounds | backend/src/lastfm.rs:519-526 | three pauses with jitter below 500 ms total at least 7 s and less than 8.5 s |
| TierVariety.Pigeonhole | eval/pipeline.py:468-485 | with four places and a missing tier the most crowded tier has two members |
| TierVariety.CountTiers | eval/pipeline.py:469-471 | the tally counts every tier present, in first-seen order |
| TierVariety.MostRepresented | eval/pipeline.py:481 | the first tier with the highest count |
| TierVariety.LowestOf | eval/pipeline.py:482-485 | the first lowest-scoring member of a tier |
| TierVariety.BestAvailable | eval/pipeline.py:461-478 | the best untaken pool member of a tier, the first of equals in the pool, if there is one |
| TierVariety.ChoosePromotion | eval/pipeline.py:466-485 | promotes only for a missing tier, its best untaken item, at the place of the first lowest member of the first-seen most crowded tier |
| TierVariety.ChoiceIsUnique | eval/pipeline.py:466-485 | that leaves one promotion possible |
| TierVariety.EvictionKeepsBest | eval/pipeline.py:480-487 | evicting the lowest of a tier with two members keeps every tier's best |
| TierVariety.TurnsProgress | eval/pipeline.py:466-490 | after each tier's turn the finished tiers hold their best and the rest is untouched |
| TierVariety.TurnsAreDetermined | eval/pipeline.py:466-490 | so top, taken names and tail after every turn are determined |
| TierVariety.EnforceTierVariety | eval/pipeline.py:446-492 | the result is top and tail after the four turns, for every input; and with at least four distinct pool members on top, every tier with a candidate is there, each former tier keeps its best, each missing one enters with its best |
| TierVariety.ThreePlacesMissATier | eval/pipeline.py:446-492 | fewer than four places always miss a tier |
| TwoHop.OneHop | eval/pipeline.py:232-240 | per candidate and seed the best strength offered, under the first spelling met |
| TwoHop.ExpandSecondHop | eval/pipeline.py:245-259 | one-hop entries are as with the option off; second-hop strengths are the best over all paths, no more and no fewer, under the first spelling met |
| TwoHop.StrengthIsTheBestPath | eval/pipeline.py:250-258 | no m1 * m2 * discount beats the strength held, and one attains it unless it is zero |
| TwoHop.SumsAgree | eval/pipeline.py:232-259 | two maps summing the same offers agree on every candidate, seed and strength |
| TwoHop.ExpansionOrderIsInvisible | eval/pipeline.py:250-258 | every processing order of the expanded lookups gives the same strengths |
| Snowball.LevelIsDistance | eval/build_cohort.py:109-131 | a queued user's depth is the length of the shortest walk to it |
| Snowball.OrderIsNearestFirst | eval/build_cohort.py:109-131 | whoever is strictly nearer to the root was queued earlier |
| Snowball.EmptyQueueReachedAll | eval/build_cohort.py:109-131 | an empty queue means everyone reachable was queued |
| Snowball.GrownFrontier | eval/build_cohort.py:127-131 | the search keeps the breadth-first frontier whatever the batch size |
| Snowball.GrownIsFound | eval/build_cohort.py:127-131 | users are queued in the order a full search first comes across them: by the earlier user listing them, then by place in that list |
| Snowball.OrderIsSettled | eval/build_cohort.py:127-131 | which fixes the order: of two such lists one begins the other |
| Snowball.KeptIff | eval/build_cohort.py:118-124 | kept users are exactly the examined ones that are suitable and unclaimed |
| Snowball.KeptInOrder | eval/build_cohort.py:118-124 | they stand in the order examined |
| Snowball.VetBatch | eval/build_cohort.py:118-126 | vets a prefix of the batch, all of it unless the cap is reached, and claims what it keeps |
| Snowball.ExpandBatch | eval/build_cohort.py:127-131 | queues the unseen friends of a whole batch as if expanded one user at a time |
| Snowball.SnowballRoot | eval/build_cohort.py:76-136 | users are examined once, nearest first and in the one order of first discovery, avoiding those claimed before; the vetted are the suitable unclaimed ones in that order; caps hold; it stops only when full, out of budget or out of users |
| Snowball.DistancesNeverFall | eval/build_cohort.py:109-131 | the examined users' distances from the root never decrease |
| Snowball.MultiRoot | eval/build_cohort.py:222-237 | each root runs against the seeds and all earlier shares; no root starts once the target is met; the cohort is distinct, suitable, seedless and bounded |
| Snowball.CohortIsSound | eval/build_cohort.py:222-237 | cohort members are distinct, suitable and no seeds |
| Snowball.SharesAreDisjoint | eval/build_cohort.py:123-124 | no user is attributed to two roots |
| Snowball.CohortIsBounded | eval/build_cohort.py:222-237 | the total is below target plus max_per_root and each share within its cap |
| SplitCollab.CutPieces | backend/src/split_veto.rs:116-134 | the one-pass scan yields the pieces of the leftmost cut |
| SplitCollab.SplitCollab | backend/src/split_veto.rs:116-140 | for whatever cut meets the scan-free definition, and one does: all pieces that are not blank, in order, each stripped at both ends, if there are two, and otherwise nothing |
| SplitCollab.MembersAreListed | backend/src/split_veto.rs:133-140 | the same for any prefix-free table |
| SplitCollab.SplitParses | backend/src/split_veto.rs:122-132 | the cut meets the scan-free definition: separators only, the leftmost each time |
| SplitCollab.ParseIsUnique | backend/src/split_veto.rs:122-132 | when no separator begins another there is only one such cut |
| SplitCollab.SplitRebuilds | backend/src/split_veto.rs:122-134 | pieces and separators as written rebuild the name |
| SplitCollab.SeparatorsAreSound | backend/src/split_veto.rs:65 | no separator is empty or begins another, and all are in lower case |
| SplitCollab.TableOrderIsInvisible | backend/src/split_veto.rs:62-65 | reordering the table changes no result |
| SplitCollab.MembersSplitNoFurther | backend/src/split_veto.rs:116-140 | a member is non-blank at both ends, holds no separator in any ASCII case, and splits no further |
| SplitCollab.CollabIff | backend/src/split_veto.rs:133-140 | members are returned exactly when two pieces are not blank |
| SplitCollab.CaseIsInvisible | backend/src/split_veto.rs:117-132 | spellings equal up to ASCII case are cut at the same places into pieces equal up to ASCII case |
| SplitCollab.StartsInAnyCase | backend/src/split_veto.rs:117-123 | a lower-case table's separator is found exactly where its letters stand in any case |

## Left out

- HTTP, JSON, Redis, SQL, Spotify, routing, metrics, boot code and the frontend: I/O or table lookups, replaced by arbitrary answers.
- Floating point: scores, weights, tokens and strengths are reals; rounding and NaN are not modelled.
- Unicode: normalization, lower-casing (except the ASCII lower-casing of the splitter), whitespace and `collab_components` are parameters; the splitter works on characters, not bytes.
- `aggregate_genres`, the depth score and the low-data message: the genre weights are arbitrary instead, the rest is reporting.
- The vetoes that call Deezer and Last.fm between scoring and ranking, `prepare_persistence`, the non-blend candidate build and the track pipeline: simpler copies of what is modelled.
- The eval's candidate choice for the second hop and its scoring: which entries are expanded is an input.
- Expiry of cache entries, and aliases: a row stays in the resolver's store until overwritten. There a row is its mbid, in a poll its entry and its age; the two views of a row are not connected.
- Scheduling: that a permit holder eventually finishes is not modelled, so a queued lookup's wait is counted in releases of the permit, not in time; a low-priority caller polls again at any time, not after 150 ms.
- Permit.GateIsSafe: what a cancelled lookup held, its place in the count and its permit or place in the queue, is dropped in one step.
- Clock readings are nondecreasing by premise in runs of the token bucket and the call window.
- Candidates.BuildListenbrainzProv: a lookup completing exactly at the deadline counts as in time, and handling an answer takes no time.
- The shards of the concurrent map and lock poisoning: each check is atomic.
- The cohort's single-seed and direct modes; a friend list and a vetting outcome do not change during a run.
- KeyPool.Client.PickKey: the cursor does not wrap at 2^64; after a wrap a round may miss a key when the pool's size does not divide 2^64.
- TierVariety.EnforceTierVariety: with k of zero the source fails on a non-empty pool, so k is positive here.
