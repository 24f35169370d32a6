# Lead pipeline core: entity graph, quotas and bounded buffers

A Dafny model of the stateful core of a lead-intelligence pipeline written in Go, with proofs about
every input, every run and every interleaving of it.

* **The entity graph.** Sightings of leads are folded into entity documents by an optimistic loop
  (find, merge a copy, replace if the generation is unchanged, otherwise try again). A document keeps
  redundant aggregates, a timeline capped at twenty rows, a time-decayed heat, and can be split again.
  `Entity`, `Lists`, `Timeline`, `HeatScore` and `Merging` give the value semantics; `InPlace`
  (EntityDoc.dfy), `Splitting` and `Store` are the code as it mutates documents, proved against it;
  `History`, `Folding`, `Canonicity`, `Replaying`, `SplitLaws`, `SplitInvariant` and `Protocol` prove what holds across operations and runs;
  `RowLaws`, `MergeLaws` and `HeatValues` say what a recording does to every field and what each row scores, in
  plain terms and numbers;
  `Keys`, `KeyOrder` and `ExchangeSort` cover identity keys, `LinkSuggest` the review pairs.
* **The quota limiter** (`Quota`, `QuotaMachine`, `QuotaChecks`, `QuotaBuckets`, `QuotaLanes`, `QuotaRuns`,
  `QuotaReach`): rolling windows pruned in place, request buckets, and n callers that
  check, wait unlocked and record.
* **Bounded buffers and pools**: the dedup cache (`SeenCacheModel`), batch bisection and the engage pass
  (`Batch`, `EngageLaws`), capture and flush (`Flush`), proxy rotation (`ProxyPoolModel`), folded configuration
  merges (`Discover`), worker accounting (`Pipeline`, `PipelineLaws`).

Instants are integers with 0 for Go's zero time; scores and decays are reals. Each clock reading a call
takes is a parameter of its own. The text filters, the digest behind ids, case folding, the analyser and
the outreach picker are function parameters, so every theorem holds for all of them.

## Where the code keeps less than one might expect

* The capped timeline stays the top twenty of the whole history exactly while no stored hash is re-recorded
  with a time that drops it behind a trimmed one, and no trimmed hash that had a post time comes back without
  it and above a stored row (`History.StepExact`, `History.RunExact`). Both happen: any trimmed timeline breaks
  on an early enough post time (`History.EarlierPostTimeBreaks`) and on a late enough undated return
  (`History.UndatedReturnBreaks`). With one fixed post time per hash it always holds (`History.FixedPostTimes`).
* A merge of a known hash uses the default heat configuration and its own clock, not the caller's.
* Merge order shows in the canonical hash alone, and exactly then (`Canonicity.CanonicalExactlyWhen`): heat
  finds a row in its window, the timeline has room, no old row is among the heaviest and two new ones are; or
  heat is off or finds none, and two sightings have a claim, as first buyers or on an empty canonical hash. A
  comment in merge.go speaks of the latest buyer-role sighting; the code promotes the first, and the model
  follows the code.
* A first sighting with a blank source counts one source and stores no family (`Merging.NewDocSourceCount`).
  An undated, unstamped first sighting reads the clock twice and its row can lie before first_seen
  (`Merging.NewDocRowInBounds`). A source such as `x :y` has a family with a trailing blank, which is stored
  trimmed and reported as new on every merge (`Merging.NewFamilyExact`).
* A split forgets the hashes whose rows were trimmed (`SplitLaws.SplitKeepsHashes`), and the new entity holds
  the detached hash only if the rebuilt sighting names it (`SplitLaws.DetachedHoldsHash`). The rest keeps the
  document invariant unless nothing datable is left or its canonical hash named a trimmed row
  (`SplitInvariant.SplitKeepsInvariant`).
* The resolved list and the aliases depend on the input order exactly when a forum_user and a telegram_user_id
  carry the same value (`Keys.CanonicalExactlyWhen`, `Keys.AliasesCanonicalExactlyWhen`, `Keys.OnlyUserTies`); the
  entity id only when such a pair also comes before every other key (`Keys.IdCanonicalExactlyWhen`).
* With n callers the exact maxima (`QuotaReach.BoundsExact`) are n + min(rpd - 1, A) grants a day, where A is what
  the request buckets admit in a day, and min(tpm, (k + 1) * share) + (n - 1) * share tokens a minute, where k is
  min(rpd - 1, what they admit in a minute) and a share is the largest estimate or, if smaller, tpm. So the daily
  limit holds over every run exactly for n = 1 or n + A <= rpd (`QuotaReach.DayLimitHoldsExactly`), and the token
  limit for estimates of any size exactly for n = 1. The one record per caller beyond the buckets is there because
  a bucket spaces admissions and not records: a caller let through before the window may record in it.
* A configured split of the requests takes effect exactly if it sums to 100 and gives critical requests a share:
  it is normalized twice, and raising a missing critical share to one makes the second pass fall back to the
  default (`Quota.SplitTakesEffect`).
* Two links through ids that contain a bar can share the deduplication key, and then one is lost
  (`LinkSuggest.SuggestedExactly`, `LinkSuggest.BarsCollide`); the hex ids the resolver makes never do.
* The engage pass replaces a result's whole engagement, including the pilot signals inside it
  (`Batch.EngageForgetsSignals`); the result's own pilot fields stay.
* Proxy rotation repeats an endpoint when the 64-bit counter wraps among k picks, unless k divides 2^64.
* A flusher stopped by cancellation flushes its buffer and leaves the channel's contents behind.
* The Dropped counter of a round mixes full-channel refusals with rejects of unlisted reasons.

## Model

| member | source | states |
|---|---|---|
| Protocol.StepKeeps | internal/entity/sighting_loop.go:56-108 | every step of any recorder keeps each document equal to the replay of its commits, each held copy a committed version, and takes no commit back |
| Protocol.RunKeeps | internal/entity/sighting_loop.go:21-54 | the same over whole runs |
| Protocol.NoLostUpdate | internal/entity/sighting_loop.go:47-107 | after any interleaving of any number of recorders a document is the sequential replay of its committed recordings, holds every hash of them, counts distinct hashes once, and its generation is the number of replaces since the insert |
| Protocol.CommitsStay | internal/entity/sighting_loop.go:47-107 | a committed recording's hash is still stored after any further run |
| Protocol.ConflictMeansProgress | internal/entity/sighting_loop.go:82-107 | a replace fails exactly if another commit hit the same document since the copy was read |
| Protocol.RaceRecovers | internal/entity/sighting_loop.go:47-107 | from any state, of two recorders that read one version the slower is refused, reads again and commits on top, so the log ends with both |
| Protocol.RefusedRetries | internal/entity/sighting_loop.go:47-54 | a refused replace or insert is tried again up to the configured attempts in all, or four, and then given up |
| Protocol.GivingUpMeansProgress | internal/entity/sighting_loop.go:47-54 | a call that exhausts its attempts saw at least that many commits by others |
| Store.MemoryStore.FindLocked | internal/entity/memory_store.go:79-94 | finds the candidate if stored, otherwise some document sharing an alias, and nothing exactly if none matches |
| Store.MemoryStore.InsertNew | internal/entity/memory_store.go:48-58 | reports a duplicate exactly if some stored document matches; otherwise files the document and changes no other |
| Store.MemoryStore.ReplaceMerged | internal/entity/memory_store.go:60-67 | succeeds exactly if the stored generation is one past the one read |
| Store.MemoryStore.RecordOnce | internal/entity/sighting_loop.go:56-108 | over the locked backend an attempt always completes and changes one document only |
| Store.MemoryStore.RecordSighting | internal/entity/memory_store.go:31-38 | never fails, succeeds on the first attempt, ignores keyless and hashless input, and keeps the invariant of every stored document; reports the changed document's id, counts, heat, tier and canonical hash, whether it and its source family are new, and whether it is hot by tier or, unscored, by two sources, a pain hit and bounds within the window |
| Store.RecordedSound | internal/entity/memory_store.go:31-94 | recording a non-blank, stamped sighting keeps the document invariant of the whole store |
| Merging.NewDocInv | internal/entity/merge.go:29-55 | a first sighting gives a document whose counters, sets, capped rows, seen bounds and canonical hash agree |
| Merging.MergeInv | internal/entity/merge.go:63-131 | merging a new or a known hash keeps that agreement |
| Merging.MergeAdvances | internal/entity/merge.go:63-131 | a merge adds exactly the sighting's hash, forgets none and advances the generation by one |
| Merging.RecordMeaning | internal/entity/sighting.go:85-117 | recording touches at most one row, keeps hashes distinct and fills the timeline up to its cap |
| Merging.CanonicalIsHeaviest | internal/entity/heat.go:291-312 | the canonical hash becomes that of a maximum-weight row of the canonical window whenever the window holds a row |
| Merging.MergeOnlyHeats | internal/entity/heat.go:76-96 | at one instant a new hash joining a timeline with room never lowers score or tier rank |
| Merging.NewDocSourceCount | internal/entity/merge.go:29-55 | the source count of a first sighting equals its families exactly if its source is not blank |
| Merging.NewDocRowInBounds | internal/entity/sighting.go:29-81 | the first row lies within the seen bounds exactly if row and bounds took their instant from one place |
| Merging.NewFamilyExact | internal/entity/merge.go:73-84 | the new-family flag tells whether the families grew exactly if the family is trimmed or not yet stored |
| RowLaws.KnownHashRow | internal/entity/sighting.go:85-117 | recording a stored hash changes its row alone: hash, source and family stay, score, matched labels, snippet and post time are replaced exactly if given, the seen time always |
| RowLaws.NewHashRow | internal/entity/sighting.go:46-117 | a new hash in a timeline with room adds one row with the sighting's own fields, its distinct labels and the first 500 characters of its trimmed text |
| RowLaws.FullTimelineDrops | internal/entity/sighting.go:85-142 | a new hash in a full timeline leaves out exactly one of the twenty-one rows, the one every kept row is later than, or as late with a greater hash |
| MergeLaws.KnownHash | internal/entity/merge.go:114-131 | a known hash advances the generation, refreshes row and bounds, is scored by the default configuration at the call's own clock, and changes no list, counter or flag |
| MergeLaws.NewHash | internal/entity/merge.go:63-111 | a new hash adds itself, its source, family, labels, stack and aliases as sets, one to the counters, a pain hit and the buyer flag if it has them, and is scored by the caller's configuration at the given instant |
| MergeLaws.NewHashClaims | internal/entity/merge.go:90-99 | with heat off a new hash becomes canonical exactly if none is set or it is the first buyer |
| MergeLaws.FirstSighting | internal/entity/merge.go:29-55 | every field of a first sighting's document, and its heat |
| Entity.FamilyVisible | internal/entity/resolver.go:182-214 | a source's family is blank exactly if the source is |
| Entity.FamilyMeaning | internal/entity/resolver.go:182-214 | the family is supply for an ads.txt label, else the text before the first colon if there is any, else the label, trimmed and lower-cased |
| Lists.ScanConcat | internal/entity/merge.go:159-188 | scanning a concatenation is scanning both parts, the second with the first one's seen set |
| Lists.UniqStrings | internal/entity/merge.go:142-157 | the loop returns the first trimmed occurrence of each non-blank entry |
| Lists.UniqMeaning | internal/entity/merge.go:142-157 | the result is duplicate-free, trimmed, and lists exactly the labels of the input |
| Lists.UnionStrings | internal/entity/merge.go:159-188 | two loops over one seen map are one scan of both lists |
| Lists.UnionMeaning | internal/entity/merge.go:159-188 | on a stored list this is set union and keeps the stored shape |
| Folding.FoldSums | internal/entity/merge.go:63-111 | folding unseen sightings in any order gives aggregates that depend on their set only, the rows being the twenty latest |
| Folding.OrderIndependence | internal/entity/merge.go:63-111 | two orders of the same unseen sightings give the same sets, rows, counts, buyer flag, bounds, heat score and tier |
| Canonicity.CanonicalExactlyWhen | internal/entity/merge.go:90-103 | the canonical hash is the same for every order of unseen sightings exactly if the timeline overflows, an old row is among the heaviest of the window or only one new row is; where heat has no say, exactly if at most one sighting has a claim |
| Canonicity.OrderShows | internal/entity/merge.go:90-103 | otherwise two sightings exist each of which, merged first, becomes canonical |
| Canonicity.ClaimFold | internal/entity/merge.go:90-99 | without heat the first buyer, or on an empty canonical hash the first sighting, claims it |
| Canonicity.BestAt | internal/entity/heat.go:291-312 | among equal weights the promotion loop keeps the first row |
| Canonicity.SortedPastCap | internal/entity/sighting.go:129-142 | a fold past twenty rows ends with its rows in timeline order |
| Canonicity.CanonicalDependsOnOrder | internal/entity/merge.go:90-99 | with heat off, two buyer sightings in two orders leave different canonical hashes |
| Timeline.TrimKeepsTop | internal/entity/sighting.go:129-142 | trimming keeps exactly the twenty highest rows by event time and hash, and drops none of a shorter timeline |
| Timeline.TopExtend | internal/entity/sighting.go:85-142 | trimming after each addition loses nothing the full history's top twenty holds |
| History.StepExact | internal/entity/sighting.go:85-142 | one stamped recording keeps the rows equal to the history's top twenty exactly if a stored hash does not fall behind a trimmed one and a trimmed dated hash that returns undated stays below every stored row |
| History.RunExact | internal/entity/sighting.go:85-142 | over a run the rows are the top twenty after every step exactly if every step meets that condition |
| History.RunRefines | internal/entity/sighting.go:85-142 | over every run that meets the condition the rows end as the top twenty of everything recorded |
| History.SteadyKept | internal/entity/sighting.go:85-142 | a run that never moves a hash back nor drops its date meets it, re-recorded trimmed hashes included |
| History.FixedPostTimes | internal/entity/sighting.go:85-142 | with one post time per hash the rows are the min(n, 20) greatest of all n hashes |
| History.EarlierPostTimeBreaks | internal/entity/sighting.go:85-117 | once a hash was trimmed, re-recording any stored one early enough breaks the property |
| History.UndatedReturnBreaks | internal/entity/sighting.go:85-117 | a trimmed dated hash recorded late without its post time breaks it too |
| History.UndatedRefreshHarmless | internal/entity/sighting.go:85-117 | a stored dated hash recorded without its post time never does |
| HeatScore.HeatOnlyCools | internal/entity/heat.go:158-289 | the same rows scored later never have a higher score or tier rank, for non-increasing decay steps |
| HeatScore.CoolsExactlyWhen | internal/entity/heat.go:205-221 | scores never rise over time for every timeline exactly if the decay table never steps up |
| HeatScore.WarmsUp | internal/entity/heat.go:205-221 | a table that steps up heats some single-row timeline |
| HeatScore.RowOnlyHeats | internal/entity/heat.go:223-289 | one more row never lowers score or tier rank |
| HeatScore.BestIsHeaviest | internal/entity/heat.go:291-312 | the promotion loop picks a heaviest row of the window if it holds any |
| HeatScore.HeatOfPermutation | internal/entity/heat.go:76-96 | heat does not depend on the order of the rows |
| HeatValues.RowScore | internal/entity/heat.go:158-221 | the score of one row by cases: 0, its score up to 50, 36 if it matched unscored, or 1.2 times its score up to 50, times the decay of its age |
| HeatValues.TimelineScore | internal/entity/heat.go:76-96 | a timeline scores the sum of its rows' scores, times 1.3 for two and 1.5 for more families with a painful row in thirty days |
| HeatValues.ScoreAtMost | internal/entity/heat.go:76-96 | with decays of at most one, a score lies between 0 and 75 for every row |
| HeatValues.FreshIs | internal/entity/heat.go:257-273 | the fresh instant is zero without an event inside the window and otherwise its greatest event |
| HeatValues.TierIs | internal/entity/heat.go:275-289 | blazing and hot exactly from their scores with a fresh event, two sources and a pain hit; otherwise warm exactly from its score, else cold |
| HeatValues.RoundedIs | internal/entity/heat.go:99-102 | the shown score is the nearest integer, a half away from zero |
| HeatValues.NormalizedValues | internal/entity/heat.go:114-156 | every missing or negative setting takes its default value, every other stays |
| HeatValues.DefaultExample | internal/entity/heat.go:40-57 | under the defaults a matched, unscored row of today scores 36, which is warm |
| InPlace.ComputeScore | internal/entity/heat.go:76-96 | the loop returns the decayed weights' sum times the diversity bonus |
| InPlace.DiversityBonus | internal/entity/heat.go:223-251 | the loop counts the distinct families of the recent painful rows |
| InPlace.ComputeFresh | internal/entity/heat.go:257-273 | the loop returns the latest event inside the window |
| InPlace.HeaviestHash | internal/entity/heat.go:291-312 | the loop returns the specified best row's hash |
| InPlace.EntityDoc.constructor | internal/entity/merge.go:29-55 | the assembled object is the specified new document |
| InPlace.EntityDoc.AppendOrRefresh | internal/entity/sighting.go:85-117 | the in-place scan refreshes or appends exactly the specified row, and reports which |
| InPlace.EntityDoc.TrimSightings | internal/entity/sighting.go:129-142 | sorts and cuts as specified |
| InPlace.EntityDoc.UpdateSeenBounds | internal/entity/sighting.go:70-81 | widens the bounds to the event, a zero first counting as unset |
| InPlace.EntityDoc.RecomputeHeat | internal/entity/heat.go:76-96 | updates heat and canonical hash as specified and nothing else |
| InPlace.EntityDoc.MergeSighting | internal/entity/merge.go:63-111 | the field updates amount to the specified merge, and the result reports the new counts and family |
| InPlace.EntityDoc.GrowSighting | internal/entity/merge.go:72-99 | the new-hash updates: counters, unions, families, pain, buyer role, canonical claim |
| InPlace.EntityDoc.RefreshSighting | internal/entity/merge.go:114-131 | the known-hash path: generation, row, bounds, default-configuration heat |
| Replaying.ReplayLinked | internal/entity/merge.go:29-131 | every document built by recordings holds each of their hashes, counted once, one generation per merge |
| Replaying.ReplayInv | internal/entity/merge.go:29-131 | every document built by recordable sightings satisfies the document invariant |
| Replaying.ReplaySums | internal/entity/merge.go:29-111 | a replay without repeats is the unordered sum of its sightings |
| Splitting.RemoveHash | internal/entity/split.go:135-148 | drops the hash from list and rows, and from the canonical field |
| Splitting.Accumulate | internal/entity/split.go:172-203 | the loop accumulates the specified aggregates and the set of row hashes |
| Splitting.RebuildAggregates | internal/entity/split.go:158-214 | hashes are listed from the rows, once each, and all aggregates are rebuilt |
| Splitting.SplitHashFromEntity | internal/entity/split.go:88-133 | fails exactly on the listed conditions, with the listed error and no change; otherwise leaves the specified rest and a new document |
| SplitLaws.SplitKeepsHashes | internal/entity/split.go:158-214 | no other hash is forgotten exactly if at most twenty hashes, or twenty-one with the detached one already trimmed |
| SplitLaws.SplitDeletes | internal/entity/split.go:126-131 | source-deleted holds exactly if the hash was the only one |
| SplitLaws.SplitUndoesMerge | internal/entity/split.go:88-214 | up to twenty distinct sightings: the rest has the sets, counts, bounds and rows of replaying all others, the heat of those rows now, as canonical hash a heaviest one of the window's, and at least their aliases and stack; pain and buyer flag too if the snippets keep the signals |
| SplitInvariant.SplitKeepsInvariant | internal/entity/split.go:158-214 | the rest satisfies the document invariant exactly if a datable row is left and the canonical hash is rechosen, was the detached one, or still has its row |
| SplitLaws.DetachedHoldsHash | internal/entity/split.go:88-133 | the new entity holds exactly the detached hash if and only if the sighting names it |
| Keys.DedupeKeys | internal/entity/key.go:45-63 | keeps the first of each canonical token, dropping empty keys |
| Keys.SortKeys | internal/entity/key.go:65-73 | the in-place exchange loops compute the specified rounds |
| Keys.SortKeysSorts | internal/entity/key.go:65-73 | the rounds yield a sorted permutation |
| ExchangeSort.RoundsSort | internal/entity/key.go:65-73 | the same loops sort under every strict ordering |
| ExchangeSort.MapRounds | internal/entity/key.go:65-73 | sorting commutes with a renaming no comparison can see |
| Keys.CanonicalInjective | internal/entity/key.go:23-25 | the canonical token determines a key of a known kind |
| Keys.ResolveMeaning | internal/entity/resolver.go:95-98 | resolution returns each useful key once, none before a stronger one |
| KeyOrder.ResolvedByKind | internal/entity/key.go:27-43 | company keys come first, then domain, forum_uid, the two user kinds together, telegram and channel, each class in ascending order of value |
| KeyOrder.PrimaryByKind | internal/entity/resolver.go:112-119 | the primary key is a least company key if there is one, otherwise a least domain key, and so on |
| KeyOrder.IdOfPrimary | internal/entity/resolver.go:121-154 | the id is the digest of that key's kind and value, empty without a key |
| KeyOrder.CompanyDecides | internal/entity/resolver.go:112-154 | a lead with company keys is filed under the least of them, whatever its other keys |
| KeyOrder.SplitIdIs | internal/entity/resolver.go:132-159 | a split files the hash under the lead's own id unless that is the source's, and then under the digest of its token with the hash appended |
| Keys.TieFreeCanonical | internal/entity/resolver.go:95-98 | without ties the resolved list depends on the set of keys only |
| Keys.TieShows | internal/entity/key.go:37-73 | with a tie, the same keys in another order resolve differently |
| Keys.CanonicalExactlyWhen | internal/entity/resolver.go:95-98 | the resolved list is the same in every order and repetition exactly for tie-free keys |
| Keys.IdCanonicalExactlyWhen | internal/entity/resolver.go:112-127 | for an injective digest the entity id is, exactly if no two keys tie for the first place |
| Keys.LeastTieShows | internal/entity/key.go:37-73 | two keys tied for the first place give another strongest key in another order |
| Keys.AliasesCanonicalExactlyWhen | internal/entity/resolver.go:162-171 | the alias list is, exactly for tie-free keys |
| Keys.StrongerKeyHidesTies | internal/entity/key.go:27-43 | a company, domain or forum_uid key rules out a tie for the first place |
| Keys.OnlyUserTies | internal/entity/key.go:27-43 | ties are exactly a forum_user and a telegram_user_id of one value |
| Keys.IdAndAliasesCanonical | internal/entity/resolver.go:112-171 | for every digest: one id without a first-place tie, one alias list without ties |
| Keys.SplitIdForks | internal/entity/resolver.go:132-159 | a split never reuses the source id, for a digest that does not collide on the fork |
| LinkSuggest.Group | internal/entity/link_suggest.go:26-39 | a document is in a key's group exactly if it has the key |
| LinkSuggest.FindPairs | internal/entity/link_suggest.go:22-124 | each pass emits only linked pairs, all of them, no key twice, in whatever order the groups come |
| LinkSuggest.DedupePairs | internal/entity/link_suggest.go:126-138 | drops repeats and loses no key |
| LinkSuggest.FindLinkSuggestPairs | internal/entity/link_suggest.go:15-20 | both passes together: sound, complete, unique |
| LinkSuggest.SuggestionMeans | internal/entity/link_suggest.go:15-138 | each suggestion names two different documents that list one domain and have pains that differ when folded, or list one forum, telegram or email key; it carries their trimmed pains |
| LinkSuggest.SharedIsFound | internal/entity/link_suggest.go:22-124 | every two such documents are suggested under their key |
| LinkSuggest.PairKeyInjective | internal/entity/link_suggest.go:140-145 | for ids without a bar the key determines the unordered pair and the shared alias |
| LinkSuggest.SuggestedExactly | internal/entity/link_suggest.go:15-145 | for all ids, what is suggested is a link and is suggested once; all links are suggested exactly if no two share a string key |
| LinkSuggest.BarFreeNeverCollides | internal/entity/link_suggest.go:140-145 | links between ids without a bar never share one |
| LinkSuggest.BarsCollide | internal/entity/link_suggest.go:140-145 | ids with a bar give documents whose links do |
| Quota.CompactTimes | internal/gemini/limiter.go:163-173 | in-place compaction is filtering, in order |
| Quota.CompactEntries | internal/gemini/limiter.go:192-205 | the same, with the recomputed total equal to the kept tokens |
| Quota.QuotaLimiter.PruneRPD | internal/gemini/limiter.go:163-173 | the day window is the full grant log after the cutoff |
| Quota.QuotaLimiter.PruneTPM | internal/gemini/limiter.go:192-205 | the minute window is the full log after the cutoff and the total is its sum |
| Quota.QuotaLimiter.CheckRPD | internal/gemini/limiter.go:147-155 | passes exactly if the log holds fewer grants than the limit after the cutoff |
| Quota.QuotaLimiter.CheckTPM | internal/gemini/limiter.go:175-183 | passes exactly if the logged tokens and the estimate fit the limit |
| Quota.QuotaLimiter.Wait | internal/gemini/limiter.go:112-145 | one caller is granted exactly if both logs allow it and its context lasts until its bucket admits it; logs and throttle counts change accordingly, and of the five buckets only its own moves: one for each of the four priorities, the normal one for an unknown priority, one for embeddings |
| QuotaLanes.ConfiguredGaps | internal/gemini/limiter.go:42-81 | each bucket's gap is the whole nanoseconds of its share of the configured requests a minute, by the split in effect, or of the embedding rate |
| QuotaLanes.LanesAreApart | internal/gemini/limiter.go:94-133 | after any admissions a request can be admitted exactly if the gap of its own priority has passed since each earlier one of that priority; other priorities never delay it |
| QuotaLanes.BucketsAdmitInTurn | internal/gemini/limiter.go:94-133 | over every run of the n callers two admissions of one bucket are its gap apart |
| QuotaChecks.StepKeepsTokens | internal/gemini/limiter.go:112-145 | every step of every caller keeps the last minute's tokens and all pledges within tpm + (n - 1) * share |
| QuotaBuckets.BucketsHold | internal/gemini/limiter.go:78-145 | over every run a window holds at most one record per caller beyond what buckets of burst one admit in it |
| QuotaRuns.Interleave | internal/gemini/limiter.go:42-205 | any interleaving of n callers on one configured limiter, with its pruned windows and buckets, is a run of the machine over the full logs |
| QuotaRuns.QuotaHolds | internal/gemini/limiter.go:112-205 | over every run of n callers each day window holds at most n + min(rpd - 1, A) grants and each minute window at most min(tpm, (k + 1) * share) + (n - 1) * share tokens |
| QuotaReach.DayBoundReached | internal/gemini/limiter.go:112-161 | for all limits, buckets and callers some run, its admissions spaced by the buckets, fills a day to its bound |
| QuotaReach.TokenBoundReached | internal/gemini/limiter.go:112-190 | and for every largest estimate some run spends a minute's bound |
| QuotaReach.BoundsExact | internal/gemini/limiter.go:112-205 | a number bounds all runs exactly if it is at least the bound: both are the true maxima |
| QuotaReach.DayLimitHoldsExactly | internal/gemini/limiter.go:112-173 | the daily limit holds over every run exactly if n = 1 or n plus the buckets' admissions of a day are at most rpd |
| QuotaReach.TokenLimitHoldsExactly | internal/gemini/limiter.go:112-205 | the token limit holds for estimates up to a size exactly if n = 1, the size is 0, or all shares of a minute fit together |
| QuotaReach.TokenLimitNeedsOneCaller | internal/gemini/limiter.go:112-205 | for estimates of any size it holds exactly for n = 1, whatever the buckets |
| QuotaReach.DefaultBuckets | internal/gemini/limiter.go:42-81 | the default buckets admit 17280 requests a day and twelve a minute |
| SeenCacheModel.SeenCache.EvictExpired | internal/dedup/seen.go:63-80 | the joint sweep of map and order list is filtering by age |
| SeenCacheModel.SeenCache.Seen | internal/dedup/seen.go:34-42 | true exactly if the id is resident and within the TTL at both readings |
| SeenCacheModel.SeenCache.MarkSeen | internal/dedup/seen.go:44-61 | expires, inserts or refreshes, and evicts the head while over capacity |
| SeenCacheModel.RunInv | internal/dedup/seen.go:34-80 | over every run the order list holds each resident id once, the size stays within the cap, times are last marks and residents queue by arrival |
| SeenCacheModel.SeenIsSound | internal/dedup/seen.go:34-42 | Seen is never true without a mark within the TTL |
| SeenCacheModel.JustMarkedIsSeen | internal/dedup/seen.go:44-61 | a just-marked id is seen exactly until its TTL runs out |
| SeenCacheModel.VictimIsLongestResident | internal/dedup/seen.go:44-61 | an overflow evicts exactly one id, the longest resident |
| SeenCacheModel.ExactWhileLiveFits | internal/dedup/seen.go:44-80 | a mark keeps every live id resident exactly if the live ids fit the cap |
| SeenCacheModel.ExactExactlyWhenRoomy | internal/dedup/seen.go:34-80 | over every run of a forward clock Seen answers as the unbounded mark log after every operation exactly if the live ids always fit |
| SeenCacheModel.SeenAgreesWithLog | internal/dedup/seen.go:34-80 | in any run Seen is never wrongly true; where live ids always fit it answers as the log at every later instant |
| Batch.BisectCalls | internal/gemini/leads_batch.go:250-274 | between 1 and 2n - 1 calls for n items |
| Batch.BisectPartitions | internal/gemini/leads_batch.go:250-274 | on success the output is the concatenated answers of calls on a contiguous partition of the items |
| Batch.PointwiseBisect | internal/gemini/leads_batch.go:250-274 | an itemwise analyser gives the map over the input, whatever failed on the way |
| Batch.BisectSucceeds | internal/gemini/leads_batch.go:250-274 | succeeds exactly if none of the calls made is fatal or fails on a single item; otherwise stops at the first such call with its error |
| Batch.FilterHigh | internal/gemini/leads_batch.go:332-340 | the High items in order |
| Batch.MergeEngage | internal/gemini/leads_batch.go:350-368 | each result takes outreach and enrichment from the answer of its id, in place |
| Batch.EngagePass | internal/gemini/leads_batch.go:222-245 | the chunks cover each High item once, in order, all full but the last; each is answered by the analyser at its own calls, and the results are the core results under all answers |
| Batch.AnalyzeLeads | internal/gemini/leads_batch.go:211-246 | a failed core pass is returned, and otherwise the error of the first chunk that fails; else order, length, geo, ICP and pilot fields are those of the core pass |
| Batch.EngageKeepsVerdict | internal/gemini/leads_batch.go:350-368 | no sequence of answers changes id, geo, ICP or pilot fields |
| Batch.EngagedOnce | internal/gemini/leads_batch.go:350-368 | a result named by one answer takes exactly that answer's outreach; named by none it stays |
| EngageLaws.HighOne | internal/gemini/leads_batch.go:332-340 | a lead is engaged exactly if its trimmed priority reads high in any case |
| EngageLaws.HighConcat | internal/gemini/leads_batch.go:332-340 | the High leads of a list are those of its parts, in order |
| EngageLaws.LastAnswerDecides | internal/gemini/leads_batch.go:350-368 | a lead's outreach is that of the last result naming it in the last answer naming it: the chosen channel, the subject exactly for email, the rest as answered |
| EngageLaws.LastEnrichmentStays | internal/gemini/leads_batch.go:350-368 | its enrichment is that of the last answer whose result has a company type or a summary, or the core pass's |
| EngageLaws.UnnamedStays | internal/gemini/leads_batch.go:350-368 | a lead no answer names stays as the core pass made it |
| Flush.TickerFlush.FlushBuf | internal/batch/ticker_flush.go:28-35 | hands off a copy of a non-empty buffer and empties it |
| Flush.TickerFlush.Turn | internal/batch/ticker_flush.go:40-57 | one select's effect on buffer and batches; earlier batches stay as they were |
| Flush.TickerFlush.Loop | internal/batch/ticker_flush.go:40-57 | a whole sequence of selects |
| Flush.ConsumeKeeps | internal/batch/ticker_flush.go:40-57 | every batch is non-empty and within the batch size, and one event adds exactly its item |
| Flush.ItemsFillBatches | internal/batch/ticker_flush.go:40-57 | an item waits in the buffer or completes a batch of exactly the batch size |
| Flush.TickedFlushed | internal/batch/ticker_flush.go:52-57 | after a tick, whatever came before, everything accepted is handed off or still in the channel |
| Flush.FullBatchesBetweenTicks | internal/batch/ticker_flush.go:40-57 | without ticks and cancellations every batch of a running flusher is full |
| Flush.Capturer.TryCapture | internal/queue/capturer.go:45-63 | accepts exactly if there is room; a refusal counts one drop |
| Flush.RunConserves | internal/batch/ticker_flush.go:27-57 | over every interleaving batches, buffer and channel concatenated are the accepted events in order, and accepted plus dropped are the attempts |
| Flush.StoppedFlushed | internal/batch/ticker_flush.go:42-51 | a stopped flusher left exactly the channel's contents unflushed |
| Flush.ClosedMeansDrained | internal/batch/ticker_flush.go:47-51 | without cancellation it stops only with everything flushed |
| ProxyPoolModel.ProxyPool.PickEndpoint | internal/httpclient/proxy_pool.go:150-178 | an endpoint without cooldown or past it, its true index, the counter's slot; none exactly if all cool, then the earliest expiry |
| ProxyPoolModel.ProxyPool.PruneCooldowns | internal/httpclient/proxy_pool.go:180-188 | clears exactly the expired cooldowns |
| ProxyPoolModel.ProxyPool.MarkCooldown | internal/httpclient/proxy_pool.go:190-211 | the first endpoint of that address cools, no other changes |
| ProxyPoolModel.PruneKeepsAvailable | internal/httpclient/proxy_pool.go:180-188 | pruning never changes who is available |
| ProxyPoolModel.RotationExact | internal/httpclient/proxy_pool.go:168-177 | k picks over k endpoints never repeat exactly if the counter does not wrap among them or k divides 2^64 |
| ProxyPoolModel.EachOnce | internal/httpclient/proxy_pool.go:150-178 | then every available endpoint is picked exactly once |
| Discover.UniqueFoldedLoop | internal/discover/pending.go:51-79 | the two loops over one seen map are the folded scan |
| Discover.NewAdditions | internal/discover/auto_apply.go:70-112 | returns exactly the proposals the configuration does not know, once each |
| Discover.FoldedMeaning | internal/discover/pending.go:51-79 | the scan returns exactly the first entry of each new key, trimmed, under distinct keys |
| Discover.TrimQuota | internal/discover/auto_apply.go:115-138 | keeps as long a prefix of telegram, and then of serp, as the quota allows, and defers the rest in order |
| Discover.FoldedIsBaseThenAdditions | internal/discover/pending.go:51-79 | a merge is the cleaned base followed by the additions |
| Discover.MergeInSteps | internal/discover/pending.go:43-79 | merging x and then y is merging x ++ y |
| Discover.MergeIdempotent | internal/discover/pending.go:43-79 | merging again changes nothing |
| Discover.QuotaStepsLoseNothing | internal/discover/auto_apply.go:70-138 | what the quota covers now and the rest later give the configuration of all at once |
| Pipeline.StepTasks | internal/pipeline/worker.go:54-123 | every atomic step keeps attempts = queued + taken + started + refused + skipped, and started = verdicts + running |
| Pipeline.StepLeads | internal/pipeline/worker.go:106-115 | every step keeps accepted = priorities counted + pending = leads listed + pending |
| Pipeline.RunAddsUp | internal/pipeline/worker.go:54-179 | over every interleaving started + refused = accepted + all reject counters + running |
| Pipeline.QuietAddsUp | internal/pipeline/stats.go:13-73 | once quiet, accepted = High + Medium + Low = number of leads, and every attempt has one fate |
| Pipeline.RunKeeps | internal/pipeline/worker.go:125-179 | over every run each reject counter is the number of verdicts whose reason it stands for, Dropped plus the refusals |
| Pipeline.RejectsTotal | internal/pipeline/worker.go:125-179 | the reject counters together count every unaccepted verdict and every refusal once |
| Pipeline.RoundCounts | internal/pipeline/worker.go:81-179 | with the code's own reasons: the sum over all counters, and HardRejected, Context and Dropped as the reasons they share |
| PipelineLaws.CountedByReason | internal/pipeline/worker.go:125-179 | over every run each of nineteen counters is the number of rejects with the one reason it is named for |
| PipelineLaws.FirstFlagDecides | internal/pipeline/worker.go:81-104 | geo, hard reject, duplicate and mail record decide in this order, then the processor's own reason, then dropped |
| PipelineLaws.RunCountsPriorities | internal/pipeline/stats.go:13-73 | over every interleaving each priority counter is the number of listed leads of that priority, and those about to be listed |
| PipelineLaws.RunKeepsLeads | internal/pipeline/worker.go:106-115 | of the accepted leads with any given property as many are listed or about to be, so none is lost, changed or listed twice |

## Left out

- Replaying.ReplayInv: asks for non-blank hash and source and an instant all parts of a call agree on; the exact conditions at a first sighting are Merging.NewDocSourceCount and Merging.NewDocRowInBounds.
- SplitLaws.SplitUndoesMerge: aliases and stack are only a superset, since the split does not prune them, and outside the canonical window the canonical hash is not compared; sources are non-blank, as a blank first source is counted without a family.
- Keys.SplitIdForks: asks the digest not to collide on the one forked token; collision resistance of SHA-256 is not modelled.
- History.StepExact: asks that the readings one call takes for an undated, unstamped sighting agree, so that the row and the history mean the same instant.
- Canonicity.CanonicalExactlyWhen: asks that now lies further from the zero time than the canonical window is wide; a Go duration spans at most 292 years, so every clock reading does.
- Keys.IdCanonicalExactlyWhen: takes the digest to be injective, as SHA-256 is meant to be.
- Mongo stores and the atomic backend; the protocol relies on the replace contract only.
- The contact, company and domain normalisers of ResolveKeys before its deduplicate-and-sort tail.
- The text filters behind pain and buyer signals, and the geo, scoring and classification word lists.
- Unicode: lower-casing is ASCII, case folding is a parameter, snippets are cut by character and not by byte.
- Floating-point rounding of heat, and saturation of instants and durations.
- sort.Slice on timeline rows is an insertion sort on values; with distinct hashes every sort gives the same rows.
- The request buckets' own package: a bucket of burst one admits no two requests closer than its gap, taken in whole nanoseconds; a cancelled wait takes no slot, and the wait counters are not kept.
- The limiter's callers: a grant is one step, as the code records under one lock.
- acquire, the waiting loop around pickEndpoint, and per-endpoint rate limits.
- A flush callback that fails: the code ignores its result.
- A capture after the channel is closed, which panics in Go and does nothing here; the capturer itself never closes its channel.
- Rendezvous on an unbuffered channel, and capturers or stores that are nil.
- The worker pool is a state machine over values with a processor that is always present; wait-group safety, timeouts and metrics are not modelled.
- File persistence, blocked-query filtering and weekly quota arithmetic of the discover package.
- Prompts, schemas and JSON decoding of the analyser, which is an oracle here.
- CLI, logging, configuration loading, sales export and metrics.
