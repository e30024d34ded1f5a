# FraudNet verification model

A Dafny model of the algorithms and small protocols at the heart of FraudNet, with proofs of what they guarantee.
Scores and token counts are exact reals; clocks are integer milliseconds. Code that works in place is modelled in
place: classes with the same fields, loops with the same branches and early exits, each proved against an independent
definition. `dafny verify dfyconfig.toml` checks everything.

## What is modelled

**Watchlist matching** (`Selection`, `Jaro`, `Phonetics`, `NameMatch`, `WatchlistSearch`). The Jaro scan with its two
flag arrays is proved to compute the unique greedy matching; the matched characters agree as multisets, so the
transposition scan never runs off the end and the similarity is 1 exactly for equal strings. Soundex with its early
break and Metaphone with its digraph skips are proved equal to codes defined position by position. The greedy token
alignment pairs as many tokens as it can and averages to 1 exactly on sub-multisets. The corpus search with its two
early exits is characterised for every threshold.

**Domain lookalikes** (`EditDistance`, `BrandLookalike`, `FirstSeen`). The two-row bounded Levenshtein is exact up to its
cap, where distance is the least cost of any edit script. The verdict does not depend on set iteration order. The
bounded first-seen table is related to the full log of observations.

**Graph motifs** (`GraphIndex`, `MuleChains`, `TemporalJoins`). The indexes with their stable in-place sort, the
depth-first search that pushes and pops a shared path, and three temporal joins are proved equal to definitions
quantified over the raw edge list.

**Rate limits and windows** (`TokenBucket`, `AgentWindow`). Token buckets refine a rule on windows of the whole call
history. Expiring the Redis key is unobservable exactly when an idle key refills first. The trimmed deque refines the
whole append history.

**Protocols** (`AuditArchive`, `OtpGuard`, `BusinessRegistry`, `DecisionPolicy`, `DefaultPolicy`, `DecisionTrace`,
`DecisionPipeline`).
Each service is a state machine whose invariant holds after every step, whatever fails: archiving, the OTP correlator,
the cache in front of the registry, and decision handlers whose steps interleave with each other and with policy reloads.

**Agent scoring** (`CommissionCycles`, `AgentProfile`). The skip-by-two scan counts exactly the cycles of the raw window.
Profiles are decayed peaks of their whole history.

## Where the code differs from what is said about it

The model follows the code. Each point is proved, with a concrete input or an exact condition.

- A distance beyond the cap need not be reported as cap + 1 (`EditDistance.CanExceedCapPlusOne`).
- The Soundex here is not the standard one: H and W separate equal digits (`Phonetics.StandardIff`,
  `Phonetics.AitchSeparates`).
- Schwartz and Swartz, the documented example of names that Soundex tells apart and Metaphone does not, have one Soundex
  code and two Metaphone codes; Lee and Leo, documented as phonetically different, have equal codes (`Phonetics.SchwartzAndSwartz`, `Phonetics.LeeAndLeo`).
- A name matches itself at the default threshold only if its longest token has a letter (`NameMatch.SelfHitIff`).
- The early exit of the corpus search loses hits for thresholds above 0.99 (`WatchlistSearch.HitIffSomeScores`,
  `WatchlistSearch.AliasIsMissed`).
- A legitimate domain with three labels can be flagged (`BrandLookalike.ListedDomainIsClearedIff`, `BrandLookalike.ListedDomainCanBeFlagged`).
- The filter that is to drop chain prefixes only drops repetitions (`MuleChains.PrefixFreeIff`,
  `MuleChains.PrefixIsReportedToo`); a hop at time 0 switches the order check off (`MuleChains.OrderedIff`,
  `MuleChains.ZeroTimestampDisablesOrder`); the chain total counts the earliest transfer of every hop, not the one
  walked (`MuleChains.TotalIsWalkedIff`, `MuleChains.TotalNeedNotBeWalked`).
- `voice_sms_momo_24h` only follows the earliest message after a call and misses others (`TemporalJoins.PatternCanBeMissed`).
- A Redis bucket whose key expires before it has refilled comes back full (`TokenBucket.ZeroRefillIsObservable`), and a
  clock that steps back refills the same time twice (`TokenBucket.ElapsedBoundIff`, `TokenBucket.BackwardStepRefillsTwice`).
- A transaction dated ahead of the clock evicts ones a view should show (`AgentWindow.ViewRefinesIff`,
  `AgentWindow.FutureDatedTxnHidesHistory`).
- Audit rows arriving between fetch and detach are not in the archived object (`AuditArchive.ArchivingIsSafe`).
- A manifested partition that failed to detach is never tried again (`AuditArchive.StrandedForeverIff`).
- Cache coherence needs atomic operations (`BusinessRegistry.InterleavedFillIsStale`).
- A policy edit that only touches match predicates or the default never goes live (`DecisionPipeline.Pipeline.MatchEditsNeverGoLive`).
- A reload during a claim stamps the old policy's decision with the new policy (`DecisionTrace.ActionsAreDecisions`,
  `DecisionPipeline.ReloadOvertakes`).
- Severity and subject predicates have no effect on motifs (`DecisionPolicy.MotifsIgnoreSeverityAndSubject`).
- Rounding can put a composite below one of its scores (`AgentProfile.UndercutIff`, `AgentProfile.RoundingCanUndercut`);
  a clock that goes back inflates it past 1 (`AgentProfile.NeverAboveOneIff`, `AgentProfile.ClockBackInflates`); and ten idle hours do not erase a profile that is updated
  meanwhile (`AgentProfile.UpdatingMoreOftenDecaysLess`).

## Model

| member | source | states |
|---|---|---|
| Jaro.GreedyIsUnique | services/aml-watchlist/src/aml_watchlist/matching.py:68-77 | The declarative description of the matching (each character takes the first compatible position nobody took) has exactly one solution. |
| Jaro.Matching | services/aml-watchlist/src/aml_watchlist/matching.py:68-77 | That solution exists: the computed matching satisfies the description. |
| Jaro.MatchingIsMaximal | services/aml-watchlist/src/aml_watchlist/matching.py:68-77 | No position is used twice, matches stay in the window, and no unmatched character has a compatible free position left. |
| Jaro.MatchedMultisetsAgree | services/aml-watchlist/src/aml_watchlist/matching.py:68-77 | At every point of the scan the flagged characters of both strings agree as multisets, so the match counts are equal. |
| Jaro.MarkMatches | services/aml-watchlist/src/aml_watchlist/matching.py:65-77 | The nested loops over the flag arrays set exactly the flags of the unique greedy matching. |
| Jaro.CountTranspositions | services/aml-watchlist/src/aml_watchlist/matching.py:80-89 | The scan with its advancing index never leaves the flag array and counts the mismatches of the two flagged subsequences. |
| Jaro.OneMismatchMeansNone | services/aml-watchlist/src/aml_watchlist/matching.py:80-89 | Two arrangements of the same characters cannot differ in exactly one place. |
| Jaro.SimilarityRange | services/aml-watchlist/src/aml_watchlist/matching.py:57-94 | The similarity lies in [0, 1] and is 1 exactly for equal strings. |
| Jaro.JaroSimilarity | services/aml-watchlist/src/aml_watchlist/matching.py:57-94 | The method with its early returns computes that similarity. |
| Jaro.AllMatchedScore | services/aml-watchlist/src/aml_watchlist/matching.py:78-94 | When every character finds a partner, 2h or 2h + 1 differing positions cost exactly h/(3n): mismatches are halved, rounded down. |
| Jaro.SwappedNeighbours | services/aml-watchlist/src/aml_watchlist/matching.py:64-94 | Swapping two different neighbours of n >= 4 characters costs exactly 1/(3n). |
| Jaro.RotatedNeighbours | services/aml-watchlist/src/aml_watchlist/matching.py:64-94 | Rotating three different neighbours of n >= 6 characters, an odd number of mismatches, costs the same. |
| Jaro.NothingInCommonIff | services/aml-watchlist/src/aml_watchlist/matching.py:63-79 | Different strings score 0 exactly when no equal characters stand within half the longer length minus one of each other. |
| Jaro.PrefixBonusIsUnique | services/aml-watchlist/src/aml_watchlist/matching.py:100-106 | The bonus length is the common prefix length, at most 4, and nothing else. |
| Jaro.WinklerRange | services/aml-watchlist/src/aml_watchlist/matching.py:97-107 | For prefix scales in [0, 0.25] the score stays in [0, 1]; it is 1 exactly for equal strings or when the prefix weight itself is 1. |
| Jaro.JWRange | services/aml-watchlist/src/aml_watchlist/matching.py:97-107 | With the default scale the score is 1 exactly for equal strings. |
| Jaro.JaroWinkler | services/aml-watchlist/src/aml_watchlist/matching.py:97-107 | The prefix loop computes the score that these ranges are about. |
| Jaro.LastCharacterScore | services/aml-watchlist/src/aml_watchlist/matching.py:57-107 | Replacing the last of n characters costs exactly 2/(3n) of the similarity and, from five characters on, 0.4/n of the score. |
| Phonetics.Soundex | services/aml-watchlist/src/aml_watchlist/matching.py:125-141 | The scan that remembers the last digit and stops at four characters gives the letter, the first three digits of runs over the whole word, and zero padding. |
| Phonetics.SoundexShape | services/aml-watchlist/src/aml_watchlist/matching.py:125-141 | A code is the first letter and three characters, digits 1 to 6 with zeros only at the end. |
| Phonetics.DigitTable | services/aml-watchlist/src/aml_watchlist/matching.py:115-122 | The digit classes, letter by letter, in both directions. |
| Phonetics.SoundexSeesOnlyDigits | services/aml-watchlist/src/aml_watchlist/matching.py:115-141 | Replacing letters after the first by letters of the same class never changes the code. |
| Phonetics.SoundexIgnoresDoubling | services/aml-watchlist/src/aml_watchlist/matching.py:125-141 | Doubling any one letter never changes the code. |
| Phonetics.AitchSeparates | services/aml-watchlist/src/aml_watchlist/matching.py:125-141 | Ashcraft is A226 here and A261 in the published algorithm. |
| Phonetics.DigitsAgreeIff | services/aml-watchlist/src/aml_watchlist/matching.py:131-140 | Against the published algorithm, which looks through H and W: the digits of every prefix agree exactly when no digit is repeated across H and W. |
| Phonetics.StandardIff | services/aml-watchlist/src/aml_watchlist/matching.py:125-141 | The whole codes agree exactly when the first such repeat, if any, comes after three digits or the published code goes on with that digit to its end. |
| Phonetics.StandardIgnoresAitch | services/aml-watchlist/src/aml_watchlist/matching.py:125-141 | The published code it is compared with is indifferent to an H or W inside a name. |
| Phonetics.VowelsDoNotMatter | services/aml-watchlist/src/aml_watchlist/matching.py:125-257 | Both codes stay the same when later vowels change and there is no C, D or G. |
| Phonetics.Hear | services/aml-watchlist/src/aml_watchlist/matching.py:173-256 | One step of the scan adds exactly the sound of its letter, and skips the next letter exactly when that letter is absorbed. |
| Phonetics.Metaphone | services/aml-watchlist/src/aml_watchlist/matching.py:152-257 | The scan with its digraph skips gives the first six of the sounds defined letter by letter from the neighbours alone. |
| Phonetics.EndsInVowel | services/aml-watchlist/src/aml_watchlist/matching.py:207-211 | H is heard exactly after a leading vowel followed by mute letters, which is what testing the last output character amounts to. |
| Phonetics.MetaphoneShape | services/aml-watchlist/src/aml_watchlist/matching.py:152-257 | At most six characters, vowels only in front, and empty exactly when every letter is silent. |
| Phonetics.OneLetterCodes | services/aml-watchlist/src/aml_watchlist/matching.py:173-257 | The code of every single letter. |
| Phonetics.DigraphTable | services/aml-watchlist/src/aml_watchlist/matching.py:181-255 | What every digraph and soft letter inside a name sounds like. |
| Phonetics.ClusterTable | services/aml-watchlist/src/aml_watchlist/matching.py:163-169 | Exactly the six leading clusters lose a letter. |
| Phonetics.SchwartzAndSwartz | services/aml-watchlist/src/aml_watchlist/matching.py:10-11 | Soundex gives both names one code, Metaphone two. |
| Phonetics.LeeAndLeo | services/aml-watchlist/src/aml_watchlist/matching.py:281-285 | Both names have the same Soundex and the same Metaphone code. |
| NameMatch.BestIsUnique | services/aml-watchlist/src/aml_watchlist/matching.py:297-305 | The chosen candidate is the only position that is best, free, and first among equals. |
| NameMatch.AlignmentIsUnique | services/aml-watchlist/src/aml_watchlist/matching.py:296-308 | The description of the greedy alignment has exactly one solution. |
| NameMatch.PartnerWhileAnyLeft | services/aml-watchlist/src/aml_watchlist/matching.py:306-308 | A query token finds a partner exactly while unused candidate tokens remain, so min(|q|, |c|) pairs are made. |
| NameMatch.UnusedCount | services/aml-watchlist/src/aml_watchlist/matching.py:296-308 | No candidate token is used twice: the unused ones are exactly as many as the pairs leave over. |
| NameMatch.EqualPairsAreContained | services/aml-watchlist/src/aml_watchlist/matching.py:296-311 | When every pair is exact, candidate tokens are unused ones plus the paired query tokens, as multisets. |
| NameMatch.ContainedMeansEqualPairs | services/aml-watchlist/src/aml_watchlist/matching.py:296-311 | When the query tokens are contained in the candidate, in any order, greedy pairing finds only exact pairs. |
| NameMatch.AverageRange | services/aml-watchlist/src/aml_watchlist/matching.py:309-311 | The average lies in [0, 1] and is 1 exactly when the paired query tokens are a sub-multiset of the candidate tokens. |
| NameMatch.NameScoreRange | services/aml-watchlist/src/aml_watchlist/matching.py:275-333 | The score lies in [0, 1], is at least 0.7 on contained names, and is 1 exactly when both phonetic codes agree on top. |
| NameMatch.NothingToMatch | services/aml-watchlist/src/aml_watchlist/matching.py:287-290 | Without tokens on either side every field of the match is zero, false or empty. |
| NameMatch.SelfScore | services/aml-watchlist/src/aml_watchlist/matching.py:275-333 | A name against itself scores 0.7 plus 0.15 for each phonetic code its longest token has. |
| NameMatch.SelfHitIff | services/aml-watchlist/src/aml_watchlist/matching.py:275-333 | With the two real codes: a name reaches 0.85 against itself exactly when its longest token has a letter, and 1 exactly when Metaphone hears one. |
| NameMatch.BestCandidate | services/aml-watchlist/src/aml_watchlist/matching.py:297-305 | The inner loop finds that best candidate. |
| NameMatch.NameMatchScore | services/aml-watchlist/src/aml_watchlist/matching.py:275-333 | The method returns the score, the average, the phonetic flags and the pairs of the unique alignment. |
| NameMatch.MatchOfMeaning | services/aml-watchlist/src/aml_watchlist/matching.py:296-333 | Matched pairs are query token and candidate token in this order, used and unused candidate tokens are all of them, the flags concern the first longest tokens, and the score is the capped weighted sum. |
| NameMatch.LastLetterScore | services/aml-watchlist/src/aml_watchlist/matching.py:275-333 | Two single tokens of n letters that differ in the last one and sound alike score exactly 1 - 0.28/n. |
| WatchlistSearch.ScanMeaning | services/aml-watchlist/src/aml_watchlist/matcher.py:169-184 | The search reports the first decisive candidate if there is one, else the first maximum, else nothing. |
| WatchlistSearch.FlattenHas | services/aml-watchlist/src/aml_watchlist/matcher.py:172-174 | The candidates are every entry under its primary name and under each alias, and nothing else. |
| WatchlistSearch.FlattenAt | services/aml-watchlist/src/aml_watchlist/matcher.py:172-174 | Entry by entry, the primary name first, then the aliases in order. |
| WatchlistSearch.HitIffSomeScores | services/aml-watchlist/src/aml_watchlist/matcher.py:164-204 | For thresholds in (0, 0.99] a hit means that some name or alias reaches the threshold; the exact conditions below and above are given too. |
| WatchlistSearch.EarlyExitCanMiss | services/aml-watchlist/src/aml_watchlist/matcher.py:181-184 | Whenever a primary name is decisive, scores below the threshold and has an alias that reaches it, the search misses the alias. |
| WatchlistSearch.LongNearNameHidesAlias | services/aml-watchlist/src/aml_watchlist/matcher.py:164-204 | The real scorer does this: a primary name of at least 28 letters that differs from the query in the last one and sounds like it hides the exact alias. |
| WatchlistSearch.AliasIsMissed | services/aml-watchlist/src/aml_watchlist/matcher.py:181-184 | A concrete entry, query and threshold. |
| WatchlistSearch.ListedNameHitsIff | services/aml-watchlist/src/aml_watchlist/matcher.py:164-204 | With the real scorer at threshold 0.85, every corpus that lists the queried name is hit exactly when the longest token of the name has a letter. |
| WatchlistSearch.ScanIsSettled | services/aml-watchlist/src/aml_watchlist/matcher.py:181-184 | Once a decisive candidate is found the rest of the corpus cannot change the answer. |
| WatchlistSearch.MatchEngine.EnsureCache | services/aml-watchlist/src/aml_watchlist/matcher.py:74-88 | A non-empty corpus younger than the TTL is kept, any other is replaced and stamped. |
| WatchlistSearch.MatchEngine.TryEntry | services/aml-watchlist/src/aml_watchlist/matcher.py:174-182 | The inner loop with its break agrees with a scan of the entry's names. |
| WatchlistSearch.MatchEngine.Search | services/aml-watchlist/src/aml_watchlist/matcher.py:169-184 | The nested loops with both breaks agree with a scan of the whole corpus. |
| WatchlistSearch.MatchEngine.CheckName | services/aml-watchlist/src/aml_watchlist/matcher.py:164-204 | For thresholds in (0, 0.99] a hit exactly if a primary name or alias of an entry in the loaded corpus reaches the threshold; the score is the scan's, and on a hit entry and explanation belong to that score. |
| EditDistance.DistanceIsLeastCost | services/brain-content/src/brain_content/ott_domain_analysis.py:128-149 | The recurrence is the least cost of any script of keeps, replacements, insertions and deletions. |
| EditDistance.ZeroIffEqual | services/brain-content/src/brain_content/ott_domain_analysis.py:136-137 | The distance is 0 exactly for equal strings, so the equality shortcut is right. |
| EditDistance.DistanceIsMetric | services/brain-content/src/brain_content/ott_domain_analysis.py:128-149 | Symmetric, zero exactly on equal strings, triangle inequality, at most the longer length. |
| EditDistance.OneEdit | services/brain-content/src/brain_content/ott_domain_analysis.py:143-144 | A replacement, an insertion or a deletion anywhere costs exactly one. |
| EditDistance.LengthGap | services/brain-content/src/brain_content/ott_domain_analysis.py:134-135 | The distance is at least the difference in length, so the length shortcut is right. |
| EditDistance.RowMinimumGrows | services/brain-content/src/brain_content/ott_domain_analysis.py:145-147 | A row entirely above the cap keeps all later rows above it. |
| EditDistance.CutOffMeansFar | services/brain-content/src/brain_content/ott_domain_analysis.py:128-149 | When a shortcut applies, the true distance exceeds the cap. |
| EditDistance.NextRow | services/brain-content/src/brain_content/ott_domain_analysis.py:139-145 | One row and its minimum from the row above. |
| EditDistance.Levenshtein | services/brain-content/src/brain_content/ott_domain_analysis.py:128-149 | The true distance whenever it is within the cap, otherwise something above the cap; and precisely when that is cap + 1. |
| EditDistance.CanExceedCapPlusOne | services/brain-content/src/brain_content/ott_domain_analysis.py:128-129 | An input with cap 1 for which 3 is returned. |
| BrandLookalike.SplitJoin | services/brain-content/src/brain_content/ott_domain_analysis.py:120-125 | Splitting into labels loses nothing. |
| BrandLookalike.JoinSplit | services/brain-content/src/brain_content/ott_domain_analysis.py:120-125 | Joining dot-free labels and splitting again gives the labels back. |
| BrandLookalike.RootOfRegistrable | services/brain-content/src/brain_content/ott_domain_analysis.py:120-125 | The root compared by distance is the second label from the right, or the only one. |
| BrandLookalike.RootDistanceMeans | services/brain-content/src/brain_content/ott_domain_analysis.py:183-186 | The distance is between the second label from the right and the first label of the legitimate domain. |
| BrandLookalike.ContainsMeans | services/brain-content/src/brain_content/ott_domain_analysis.py:177 | A keyword counts wherever it stands in the label. |
| BrandLookalike.FindKeyword | services/brain-content/src/brain_content/ott_domain_analysis.py:175-178 | A keyword is found exactly when the label contains one, whatever the order of iteration. |
| BrandLookalike.DetectBrandLookalike | services/brain-content/src/brain_content/ott_domain_analysis.py:152-192 | Keyword in the first label that has one, else the minimum root distance in 1..threshold with its target, else no lookalike. |
| BrandLookalike.VerdictIsOrderFree | services/brain-content/src/brain_content/ott_domain_analysis.py:152-192 | Flag and distance do not depend on set iteration order; the domain is flagged exactly when it is not legitimate and has a keyword or a near root. |
| BrandLookalike.ListedDomainIsClearedIff | services/brain-content/src/brain_content/ott_domain_analysis.py:168-192 | A listed domain is cleared exactly if it has at most two labels, its last two labels are listed, or it has neither keyword nor near root. |
| BrandLookalike.ListedDomainCanBeFlagged | services/brain-content/src/brain_content/ott_domain_analysis.py:120-125 | mtn.com.gh is flagged whether or not it is listed, unless com.gh is. |
| FirstSeen.EnteredIsSpaced | services/brain-content/src/brain_content/ott_domain_analysis.py:233-238 | A domain can enter the table again only after as many others have entered as the table holds. |
| FirstSeen.FirstsAreEarliest | services/brain-content/src/brain_content/ott_domain_analysis.py:227-238 | The list of first sightings holds every seen domain with its earliest time, and no other. |
| FirstSeen.NothingForgottenWhileItFits | services/brain-content/src/brain_content/ott_domain_analysis.py:233-236 | While the distinct domains fit, the table is exactly the list of first sightings. |
| FirstSeen.NothingForgottenIff | services/brain-content/src/brain_content/ott_domain_analysis.py:233-236 | The table is the list of first sightings exactly while the distinct domains fit. |
| FirstSeen.ForgottenLooksNew | services/brain-content/src/brain_content/ott_domain_analysis.py:233-236 | With one domain too many the very first one is no longer in the table. |
| FirstSeen.EnteredInTimeOrder | services/brain-content/src/brain_content/ott_domain_analysis.py:233-236 | On a clock that does not go back, evicting the oldest insertion evicts the earliest first-seen time. |
| FirstSeen.FirstSeenTracker.Observe | services/brain-content/src/brain_content/ott_domain_analysis.py:227-238 | The recorded time if the domain is in the table, else now; the dictionary always is the tail of what entered; failure exactly for capacities that are not positive. |
| FirstSeen.IsNewlyRegistered | services/brain-content/src/brain_content/ott_domain_analysis.py:244-260 | Age and flag follow from the table before the call. |
| FirstSeen.NewIffFirstSightingIsRecent | services/brain-content/src/brain_content/ott_domain_analysis.py:253-260 | While the table fits, a domain counts as new exactly until its first sighting is the window plus one second old. |
| FirstSeen.AgeMeans | services/brain-content/src/brain_content/ott_domain_analysis.py:257-260 | The age is the elapsed whole seconds rounded down, and 0 if the recorded time is ahead. |
| GraphIndex.SortIsPermutation | services/brain-graph/src/brain_graph/motifs.py:490-518 | The in-place sort keeps every element with its multiplicity. |
| GraphIndex.SortSorts | services/brain-graph/src/brain_graph/motifs.py:490-518 | The result is ordered by the key. |
| GraphIndex.SortIsStable | services/brain-graph/src/brain_graph/motifs.py:490-518 | Elements with equal keys keep their order, whichever of them one looks at. |
| GraphIndex.FirstIsLeast | services/brain-graph/src/brain_graph/motifs.py:76-92 | In a sorted list the first match has the least key of all matches. |
| GraphIndex.BuildIndex | services/brain-graph/src/brain_graph/motifs.py:490-518 | Every key holds exactly the selected edges with that key in stable time order, and no key holds an empty list. |
| GraphIndex.FirstByTime | services/brain-graph/src/brain_graph/motifs.py:490-518 | The first hit in an index entry is an earliest candidate of the raw edge list, and there is no hit only if there is no candidate. |
| GraphIndex.OutgoingDstIds | services/brain-graph/src/brain_graph/motifs.py:499-506 | A destination is listed under a source exactly when some edge of that kind links them. |
| MuleChains.SearchIsSound | services/brain-graph/src/brain_graph/motifs.py:170-186 | Whatever the search records is realised by transfers that follow each other in time. |
| MuleChains.SearchIsComplete | services/brain-graph/src/brain_graph/motifs.py:170-186 | Every simple path realised that way is reached by the search. |
| MuleChains.SearchFindsChains | services/brain-graph/src/brain_graph/motifs.py:170-186 | The search from a start records exactly the chains: simple, of admissible length, realised by transfers in time. |
| MuleChains.ChainWalker.Go | services/brain-graph/src/brain_graph/motifs.py:170-184 | The recursion over the shared path terminates, restores the path, and appends exactly what it should record. |
| MuleChains.KeepFirst | services/brain-graph/src/brain_graph/motifs.py:189-195 | On a list sorted longest first the filter keeps every chain once. |
| MuleChains.WalkChains | services/brain-graph/src/brain_graph/motifs.py:160-196 | Exactly the chains from the start, without duplicates, longest first. |
| MuleChains.ZeroTimestampDisablesOrder | services/brain-graph/src/brain_graph/motifs.py:178-181 | A concrete chain whose second transfer precedes the first. |
| MuleChains.OrderedIff | services/brain-graph/src/brain_graph/motifs.py:178-181 | Every witness of every simple path is in time order exactly when no transfer at time 0 is followed, over three distinct wallets, by one outside its window. |
| MuleChains.ReportedChainsOrderedIff | services/brain-graph/src/brain_graph/motifs.py:160-196 | The same condition decides it for the reported chains when three wallets are an admissible length. |
| MuleChains.PrefixesAreChains | services/brain-graph/src/brain_graph/motifs.py:187-195 | Every long enough prefix of a chain is a chain, so prefixes are all reported. |
| MuleChains.PrefixFreeIff | services/brain-graph/src/brain_graph/motifs.py:187-196 | What is reported from a start is prefix-free exactly when it contains no chain beyond the minimum length. |
| MuleChains.PrefixIsReportedToo | services/brain-graph/src/brain_graph/motifs.py:187-196 | Under the default limits four wallets in a row are reported together with the first three. |
| MuleChains.HopAmountIsEarliest | services/brain-graph/src/brain_graph/motifs.py:199-205 | Each hop contributes the amount of an earliest transfer between its two wallets. |
| MuleChains.TotalNeedNotBeWalked | services/brain-graph/src/brain_graph/motifs.py:140-145 | An input under the default limits whose every walk carried 106 while the reported total is 17. |
| MuleChains.ShortChainsDecide | services/brain-graph/src/brain_graph/motifs.py:140-145 | Totals equal what was walked on all chains exactly when they do on chains with fewer than twice the minimum number of transfers. |
| MuleChains.TotalIsWalkedIff | services/brain-graph/src/brain_graph/motifs.py:140-145 | With chains of three wallets or more: exactly when the excesses over the earliest transfers cancel on every two transfers that can follow each other and, on three, the middle one has none. |
| MuleChains.TotalIsWalkedFromTwoIff | services/brain-graph/src/brain_graph/motifs.py:140-145 | With two-wallet chains admitted: exactly when every transfer carries what the earliest between its wallets did. |
| MuleChains.ExcessesCanCancel | services/brain-graph/src/brain_graph/motifs.py:140-145 | A transfer a walk can use may carry more than the earliest one without any total being wrong. |
| MuleChains.TotalOf | services/brain-graph/src/brain_graph/motifs.py:199-205 | The loop sums these amounts over the chain. |
| MuleChains.DetectMuleChains | services/brain-graph/src/brain_graph/motifs.py:123-157 | The reported member lists are exactly the chains from wallets with an outgoing transfer, each once, longest first per wallet, with their totals and confidences. |
| MuleChains.ConfidenceSteps | services/brain-graph/src/brain_graph/motifs.py:150 | 0.6 for the shortest chains, 0.1 more per wallet, 0.95 from four wallets more on. |
| MuleChains.OnlyTransfersMatter | services/brain-graph/src/brain_graph/motifs.py:132-136 | Edges of other kinds change neither the chains nor the counted amounts. |
| TemporalJoins.DetectVoiceThenMomo | services/brain-graph/src/brain_graph/motifs.py:307-363 | A call and caller wallet are reported exactly when a qualifying payment exists in the raw edges, with the earliest one, and once if no edge is repeated. |
| TemporalJoins.PaysAfterCallMeans | services/brain-graph/src/brain_graph/motifs.py:318-341 | What qualifies, on kinds, node kinds and times of the raw edges. |
| TemporalJoins.DetectSmsUrlBlocklist | services/brain-graph/src/brain_graph/motifs.py:371-422 | A message is reported exactly when its recipient queried a flagged domain in time, with the earliest query, and once if no edge is repeated. |
| TemporalJoins.QueriesAfterSmsMeans | services/brain-graph/src/brain_graph/motifs.py:384-401 | What qualifies, on kinds, node kinds and times of the raw edges. |
| TemporalJoins.DetectVoiceSmsMomo | services/brain-graph/src/brain_graph/motifs.py:55-115 | Sound, complete relative to the earliest message after each call, and without repetition if no edge is repeated. |
| TemporalJoins.SmsThenSendMeans | services/brain-graph/src/brain_graph/motifs.py:60-92 | The documented pattern on kinds, node kinds and times of the raw edges. |
| TemporalJoins.VisibleIff | services/brain-graph/src/brain_graph/motifs.py:76-94 | Exactly which instances of the documented pattern are missed. |
| TemporalJoins.PatternCanBeMissed | services/brain-graph/src/brain_graph/motifs.py:55-115 | An edge list with the documented pattern that is not reported under the default windows. |
| TokenBucket.BalanceIsTightestWindow | services/api-enterprise/src/api_enterprise/rate_limit.py:124-134 | The balance equals the minimum over all windows of capacity plus refill times forward time minus admitted cost; for any clock and costs. |
| TokenBucket.AdmissionRule | services/api-enterprise/src/api_enterprise/rate_limit.py:124-134 | A call is admitted by balance exactly when it breaks no window. |
| TokenBucket.NoWindowOverspends | services/api-enterprise/src/api_enterprise/rate_limit.py:124-134 | No window ever admits more than capacity plus refill times its forward time. |
| TokenBucket.ForwardIsElapsed | services/api-enterprise/src/api_enterprise/rate_limit.py:127-128 | On a clock that does not step back, forward time is elapsed time. |
| TokenBucket.BackwardStepRefillsTwice | services/api-enterprise/src/api_enterprise/rate_limit.py:127-129 | A step back and forth admits twice the capacity in no net time. |
| TokenBucket.ElapsedBoundIff | services/api-enterprise/src/api_enterprise/rate_limit.py:124-134 | On given clock readings every legal run stays within capacity plus refill times elapsed time in all its windows exactly when the readings never step back or nothing is refilled. |
| TokenBucket.LegalIsDeterministic | services/api-enterprise/src/api_enterprise/rate_limit.py:33-64 | Two limiters that follow the window rule decide alike on the same calls: the script and the in-memory limiter agree. |
| TokenBucket.InMemoryRateLimiter.Allow | services/api-enterprise/src/api_enterprise/rate_limit.py:117-134 | The decision is the window rule over the key's whole history; other keys are untouched. |
| TokenBucket.RedisRateLimiter.Allow | services/api-enterprise/src/api_enterprise/rate_limit.py:33-64 | The window rule since the last removal on any clock; the whole-history rule when the clock is sound and keys refill before they expire. |
| TokenBucket.FullAfterTtl | services/api-enterprise/src/api_enterprise/rate_limit.py:60-62 | Under that condition a key idle for its TTL is full. |
| TokenBucket.ExpiryUnobservableIff | services/brain-agent/src/brain_agent/rate_limit.py:61-87 | Dropping idle keys is unobservable if and only if refill times the TTL reaches the capacity. |
| TokenBucket.ExpiryWitness | services/brain-agent/src/brain_agent/rate_limit.py:84-85 | Otherwise: spend everything, wait out the TTL, ask for everything again. |
| TokenBucket.HalfFloorSuffices | services/brain-agent/src/brain_agent/rate_limit.py:84-85 | Every refill rate of at least half the floor meets the condition. |
| TokenBucket.TtlIsLeast | services/brain-agent/src/brain_agent/rate_limit.py:84 | The TTL is the least whole number of seconds that refills twice the capacity, at the floor rate at least. |
| TokenBucket.ZeroRefillIsObservable | services/brain-agent/src/brain_agent/rate_limit.py:84-85 | A bucket that never refills does not. |
| AgentWindow.SinceConcat | services/brain-agent-fraud/src/brain_agent_fraud/state.py:54-61 | Filtering by cutoff distributes over concatenation. |
| AgentWindow.PushBack | services/brain-agent-fraud/src/brain_agent_fraud/state.py:43-49 | Appending keeps the deque a suffix of the history with only droppable entries before it. |
| AgentWindow.PopFront | services/brain-agent-fraud/src/brain_agent_fraud/state.py:47-52 | Each trimming step keeps that too. |
| AgentWindow.ViewRefinesHistory | services/brain-agent-fraud/src/brain_agent_fraud/state.py:54-61 | Any view no earlier than the trimming cutoffs equals filtering the last entries of the full history; for any arrival order. |
| AgentWindow.FutureDatedTxnHidesHistory | services/brain-agent-fraud/src/brain_agent_fraud/state.py:43-61 | The deque of such a history holds only the later transaction, and the view loses the earlier one. |
| AgentWindow.DequeIsTrimmed | services/brain-agent-fraud/src/brain_agent_fraud/state.py:43-52 | The deque, as a function of the history, is a suffix of it, and everything before was beyond the cap or too old. |
| AgentWindow.ViewRefinesIff | services/brain-agent-fraud/src/brain_agent_fraud/state.py:43-61 | Views from a cutoff on are right for every history with timestamps up to a bound exactly when that bound is at most the window ahead of the cutoff, or the deque is too short to matter. |
| AgentWindow.AgentStateStore.Append | services/brain-agent-fraud/src/brain_agent_fraud/state.py:43-52 | The history grows by the transaction and the deque is exactly the function of it: pushed, stale front dropped, capped; other agents are untouched. |
| AgentWindow.AgentStateStore.View | services/brain-agent-fraud/src/brain_agent_fraud/state.py:54-61 | What the view returns, and when that is the filtered history. |
| AuditArchive.KeyDeterminesTable | services/compliance/src/compliance/archive.py:224-227 | Object keys of different partitions differ, so an upload never overwrites another partition's object. |
| AuditArchive.NamesRoundTrip | services/compliance/src/compliance/archive.py:55 | Year and month are read back from a partition name. |
| AuditArchive.PartitionsAreNamed | services/compliance/src/compliance/archive.py:55 | Only the names of a year and a month are partition names, and each is the name of its own. |
| AuditArchive.AgedIff | services/compliance/src/compliance/archive.py:138-140 | A partition is aged exactly when its month began before the threshold. |
| AuditArchive.AgedIsACut | services/compliance/src/compliance/archive.py:138-140 | Not aged at the first moment of its month, aged at every later one, and aged from then on. |
| AuditArchive.AgedInJune2025 | services/compliance/src/compliance/archive.py:138-140 | In June 2025 January 2024 is aged and August 2025 is not. |
| AuditArchive.ArchivingIsSafe | services/compliance/src/compliance/archive.py:218-246 | A fault before or after any effect leaves the table safe; a row is lost exactly if it arrives between fetch and detach of a pass that detaches. |
| AuditArchive.ManifestedIsSettled | services/compliance/src/compliance/archive.py:136-156 | Over any later passes and arriving rows a manifest entry and the attachment of its table never change, and no row is touched. |
| AuditArchive.StrandedForeverIff | services/compliance/src/compliance/archive.py:218-246 | A table stays attached and manifested for good exactly when the manifest row was written and the detach did not happen. |
| AuditArchive.PassOutcome | services/compliance/src/compliance/archive.py:128-156 | After any pass every table is safe, manifested tables are unchanged, and the lost rows are characterised. |
| AuditArchive.IcebergArchiver.Upload | services/compliance/src/compliance/archive.py:260-270 | Uploading touches no recorded object. |
| AuditArchive.IcebergArchiver.Commit | services/compliance/src/compliance/archive.py:229-230 | Manifest row before detach; what each fault leaves behind. |
| AuditArchive.IcebergArchiver.ArchiveOne | services/compliance/src/compliance/archive.py:218-246 | The sequence of effects on one table under every fault, with the report of the recorded row. |
| AuditArchive.IcebergArchiver.ArchiveAgedPartitions | services/compliance/src/compliance/archive.py:128-156 | The invariant holds after every pass; exactly the attached, unmanifested partitions whose month began before the threshold are tried, and exactly those without a fault are reported, once each, with their rows, key and hash. |
| OtpGuard.LastRaisedCovers | services/brain-otp-guard/src/brain_otp_guard/runner.py:144-147 | Looking at the last raised signal alone decides the window against all earlier ones. |
| OtpGuard.RaisesIff | services/brain-otp-guard/src/brain_otp_guard/runner.py:118-157 | A signal is raised exactly for an OTP-shaped MT message to a recipient in a young call with none raised within the window. |
| OtpGuard.KeyIsInjective | services/brain-otp-guard/src/brain_otp_guard/runner.py:145 | Suppression keys of different tenants or recipients differ. |
| OtpGuard.ActiveCallRegistry.Get | services/brain-otp-guard/src/brain_otp_guard/registry.py:124-131 | Eviction on read is invisible: the answer depends on the open calls and the clock only. |
| OtpGuard.SuppressionStore.ShouldSuppress | services/brain-otp-guard/src/brain_otp_guard/registry.py:145-151 | Suppressed exactly inside the window, and only a call that is not suppressed restarts it. |
| OtpGuard.SmsKeeps | services/brain-otp-guard/src/brain_otp_guard/runner.py:118-157 | Handling a message keeps registry and store in step with the history and raises by the store exactly when the history says so. |
| OtpGuard.VoiceKeeps | services/brain-otp-guard/src/brain_otp_guard/runner.py:102-116 | Handling a voice event keeps them in step too. |
| OtpGuard.OtpGuardRunner.OnVoice | services/brain-otp-guard/src/brain_otp_guard/runner.py:102-116 | The history grows by the event and the invariant is kept. |
| OtpGuard.OtpGuardRunner.OnSms | services/brain-otp-guard/src/brain_otp_guard/runner.py:118-164 | A signal leaves exactly when the history rule raises it and the send succeeds, naming the caller of the active call. |
| BusinessRegistry.KeysAreDistinct | services/business-registry/src/business_registry/registry.py:77-93 | Cache keys of numbers and short codes never collide. |
| BusinessRegistry.UpperMeans | services/business-registry/src/business_registry/registry.py:286-287 | Codes are the same exactly when they agree up to the case of ASCII letters. |
| BusinessRegistry.LookupMeans | services/business-registry/src/business_registry/registry.py:266-334 | Found exactly if linked, with the linked business, verified exactly by its status. |
| BusinessRegistry.VerifiedLooksVerified | services/business-registry/src/business_registry/registry.py:196-215 | After a verification the numbers and codes of that business look up as verified, all others as before. |
| BusinessRegistry.FillMsisdnKeepsCoherent | services/business-registry/src/business_registry/registry.py:266-284 | Caching the direct join of a number keeps every entry equal to the database. |
| BusinessRegistry.FillShortcodeKeepsCoherent | services/business-registry/src/business_registry/registry.py:286-305 | The same for short codes. |
| BusinessRegistry.UpdateBusinessKeepsCoherent | services/business-registry/src/business_registry/registry.py:196-215 | Changing a business is safe once every key that can see it is dropped. |
| BusinessRegistry.InterleavedFillIsStale | services/business-registry/src/business_registry/registry.py:266-284 | A lookup that fills the cache across a verification leaves a stale entry, unless the verification changed nothing. |
| BusinessRegistry.Registry.PurgeBusinessCache | services/business-registry/src/business_registry/registry.py:336-351 | Every key that can see the business is removed. |
| BusinessRegistry.Registry.CreateBusiness | services/business-registry/src/business_registry/registry.py:173-194 | A new pending business, or the error on a duplicate; the cache stays coherent untouched. |
| BusinessRegistry.Registry.VerifyBusiness | services/business-registry/src/business_registry/registry.py:196-215 | Status and time change, errors change nothing, coherence is kept. |
| BusinessRegistry.Registry.AddMsisdn | services/business-registry/src/business_registry/registry.py:217-237 | Success exactly without foreign-key or uniqueness conflict; negative entries are dropped. |
| BusinessRegistry.Registry.AddShortcode | services/business-registry/src/business_registry/registry.py:239-252 | The same for upper-cased short codes. |
| BusinessRegistry.Registry.LookupMsisdn | services/business-registry/src/business_registry/registry.py:266-284 | The cached lookup answers exactly what the direct join would. |
| BusinessRegistry.Registry.LookupShortcode | services/business-registry/src/business_registry/registry.py:286-305 | The same for short codes. |
| DecisionPolicy.EvaluateMeaning | services/decisions/src/decisions/policy.py:160-191 | The outcome is the first matching rule's, or the default's if none matches. |
| DecisionPolicy.SignalIsDecided | services/decisions/src/decisions/policy.py:49-63 | The deciding rule asks for nothing the signal fails in kind, severity, score, subject or evidence and is not for motifs; every rule before it does; the default decides when all do. |
| DecisionPolicy.MotifIsDecided | services/decisions/src/decisions/policy.py:65-76 | The same for motifs. |
| DefaultPolicy.WatchlistMatchesAreDecided | services/decisions/policies/default.yaml:14-47 | Under the shipped policy a watchlist match is decided by its severity alone, unless the business is verified. |
| DefaultPolicy.WatchlistRulesDecideExactly | services/decisions/policies/default.yaml:25-39 | The freeze and the friction rule decide exactly the unverified watchlist matches of their own severity. |
| DefaultPolicy.MotifsAreDecided | services/decisions/policies/default.yaml:93-99 | Exactly the voice-sms-momo motif with a score of at least 0.7 is escalated. |
| DecisionPolicy.Scan | services/decisions/src/decisions/policy.py:160-174 | The loop computes that outcome. |
| DecisionPolicy.MotifsIgnoreSeverityAndSubject | services/decisions/src/decisions/policy.py:65-76 | Severity and subject predicates never influence a motif's outcome. |
| DecisionPolicy.Validate | services/decisions/src/decisions/hot_reload.py:175-191 | The validator accepts exactly the valid policies: non-empty ids, versions and actions, no negative windows, distinct rule ids. |
| DecisionPolicy.FingerprintIgnoresMatches | services/decisions/src/decisions/policy.py:144-149 | Policies that differ in match predicates, default, id or version only share a fingerprint. |
| DecisionPolicy.FingerprintsAgreeIff | services/decisions/src/decisions/policy.py:144-149 | With a hash without collisions two policies share a fingerprint exactly when their rules agree in id, action, tier and window. |
| DecisionPipeline.SuppressionStore.Claim | services/decisions/src/decisions/suppression.py:46-55 | Granted exactly if the key is free, the rule opts out or Redis fails; grants of one key are at least the earlier TTL apart. |
| DecisionPipeline.HistoryAppend | services/decisions/src/decisions/hot_reload.py:109-111 | Trimming on every append keeps exactly the last versions. |
| DecisionTrace.AppendKeepsOrder | services/decisions/src/decisions/dispatcher.py:135-148 | A tier message of an audited event keeps "every tier message has its own audit message before it and goes to its tier", and no event is audited or acted on twice. |
| DecisionTrace.StepIsAccounted | services/decisions/src/decisions/runner.py:71-100 | A step of one handler keeps every other event accounted for, however the handlers interleave. |
| DecisionTrace.FitsAfter | services/decisions/src/decisions/runner.py:71-100 | After a step its own event is where it should be: nothing sent before the audit, the audit before the tier message, or ended accordingly. |
| DecisionTrace.StepIsSound | services/decisions/src/decisions/runner.py:71-100 | Every step of a handler (evaluate, claim, build, audit send, tier send, with any outcome of the sends) keeps the whole invariant. |
| DecisionTrace.RunsAreSound | services/decisions/src/decisions/runner.py:45-100 | Every run of interleaved handlers and reloads keeps it: each tier message has its own audit message before it, no event is audited or acted on twice, every event is accounted for, every message is true of the policies. |
| DecisionTrace.ReloadIsSound | services/decisions/src/decisions/hot_reload.py:168-172 | A reload between any two steps keeps it. |
| DecisionTrace.SuppressedOrAudited | services/decisions/src/decisions/runner.py:71-100 | Every event no longer in work was suppressed, had no member, lost its audit send, or is audited. |
| DecisionTrace.ActionsAreDecisions | services/decisions/src/decisions/policy.py:160-191 | Every message is the first matching rule's decision under a policy that was live when the event arrived, with the event's subject, tenant and key; exactly when it carries that policy's stamp. |
| DecisionTrace.ClaimMeans | services/decisions/src/decisions/runner.py:76-95 | When nothing is claimed, and otherwise which key. |
| DecisionTrace.ActionsClaimApart | services/decisions/src/decisions/runner.py:76-95 | Two actions of one event never share a key. |
| DecisionPipeline.ReloadOvertakes | services/decisions/src/decisions/dispatcher.py:100-133 | A run in which the decision follows the old policy and carries the new one's stamp. |
| DecisionPipeline.Pipeline.OnEvent | services/decisions/src/decisions/runner.py:71-77 | The first step of a handler, up to where others can run. |
| DecisionPipeline.Pipeline.OnClaim | services/decisions/src/decisions/runner.py:77-84 | The event ends suppressed exactly when its key is held. |
| DecisionPipeline.Pipeline.OnBuild | services/decisions/src/decisions/dispatcher.py:100-133 | The decision gets the stamp of the policy that is live then. |
| DecisionPipeline.Pipeline.OnSendAudit | services/decisions/src/decisions/dispatcher.py:135-143 | What the audit send leaves behind; without a producer for the tier the event ends there. |
| DecisionPipeline.Pipeline.OnSendAction | services/decisions/src/decisions/dispatcher.py:138-148 | What the tier send leaves behind. |
| DecisionPipeline.Pipeline.Handle | services/decisions/src/decisions/runner.py:71-100 | A handler that is not interrupted: suppressed exactly when its key is held, otherwise the first matching rule's decision is published under the evaluated policy, under every combination of sends. |
| DecisionPipeline.Pipeline.Reload | services/decisions/src/decisions/hot_reload.py:88-125 | A policy goes live exactly if it loads, validates and has another fingerprint; runner and dispatcher always hold the same one, initial or validated. |
| DecisionPipeline.Pipeline.MatchEditsNeverGoLive | services/decisions/src/decisions/hot_reload.py:104-107 | An edit of match predicates or the default alone is never swapped in. |
| CommissionCycles.CyclesAreDisjoint | services/brain-agent-fraud/src/brain_agent_fraud/detectors.py:60-71 | No transaction takes part in two cycles. |
| CommissionCycles.CycleMeans | services/brain-agent-fraud/src/brain_agent_fraud/detectors.py:50-68 | A cycle spelled out on the window: kinds, counterparty, more than 0 and at most 600000 ms, nothing of that counterparty between. |
| CommissionCycles.ScanCycles | services/brain-agent-fraud/src/brain_agent_fraud/detectors.py:59-71 | The scan that skips what it has used still finds every adjacent qualifying pair, and sums each used transaction once. |
| CommissionCycles.SortInOrder | services/brain-agent-fraud/src/brain_agent_fraud/detectors.py:58 | The sort orders by time, then arrival. |
| CommissionCycles.NeighboursAreCycles | services/brain-agent-fraud/src/brain_agent_fraud/detectors.py:58-66 | Qualifying neighbours in a counterparty's sorted list are exactly the cycles of the raw window: nothing of that counterparty lies between. |
| CommissionCycles.ScanOfGroup | services/brain-agent-fraud/src/brain_agent_fraud/detectors.py:57-71 | What the scan finds for one counterparty, as sums over positions of the raw window. |
| CommissionCycles.CollectMoves | services/brain-agent-fraud/src/brain_agent_fraud/detectors.py:50-53 | Counterparties in order of first appearance, each with its movements in arrival order. |
| CommissionCycles.DetectCommissionFarming | services/brain-agent-fraud/src/brain_agent_fraud/detectors.py:41-85 | The count is the number of cycles in the raw window, twice that the number of transactions used, the amount their sum; fires exactly at min_pairs, with the exact score. |
| CommissionCycles.CountsAreCardinalities | services/brain-agent-fraud/src/brain_agent_fraud/detectors.py:55-71 | The counts are numbers of positions of the window. |
| CommissionCycles.CycleAmountIsBounded | services/brain-agent-fraud/src/brain_agent_fraud/detectors.py:67-68 | With non-negative amounts the cycle amount is at most the total of the window. |
| AgentProfile.RoundFacts | services/brain-agent-fraud/src/brain_agent_fraud/detectors.py:333 | Rounding to three digits is monotone, within half a thousandth, and fixes exactly the whole thousandths. |
| AgentProfile.SoftOrIgnoresOrder | services/brain-agent-fraud/src/brain_agent_fraud/detectors.py:323-333 | The combination depends only on the multiset of detections. |
| AgentProfile.SoftOrStacks | services/brain-agent-fraud/src/brain_agent_fraud/detectors.py:323-333 | Nothing gives 0, one detection its clamped score, and two groups combine as a + b - ab. |
| AgentProfile.SoftOrDominates | services/brain-agent-fraud/src/brain_agent_fraud/detectors.py:323-333 | It is at least every clamped score, 1 exactly with a certain detection, 0 exactly without a positive one. |
| AgentProfile.SoftOrIsMonotone | services/brain-agent-fraud/src/brain_agent_fraud/detectors.py:323-333 | Higher scores or one more detection never lower it. |
| AgentProfile.CompositeAgentScore | services/brain-agent-fraud/src/brain_agent_fraud/detectors.py:323-333 | The loop with its clamping computes the rounded combination. |
| AgentProfile.CompositeDominates | services/brain-agent-fraud/src/brain_agent_fraud/detectors.py:323-333 | After rounding it is at most half a thousandth below any score, and not below whole thousandths. |
| AgentProfile.FactorAtMostOneIff | services/brain-agent-fraud/src/brain_agent_fraud/profile.py:53-55 | Decay shrinks scores exactly when the clock did not go back. |
| AgentProfile.FactorByTheHour | services/brain-agent-fraud/src/brain_agent_fraud/profile.py:52-54 | After n hours the factor is 1 - n times the rate, never below 0; a profile never seen does not decay. |
| AgentProfile.UpdatingMoreOftenDecaysLess | services/brain-agent-fraud/src/brain_agent_fraud/profile.py:32-57 | An update during a quiet period leaves a higher score, with the exact cases of equality. |
| AgentProfile.ScoresArePeaks | services/brain-agent-fraud/src/brain_agent_fraud/profile.py:38-71 | Over any run and clock, each pattern score and the composite is the largest past value after the decay since. |
| AgentProfile.ListedIffReported | services/brain-agent-fraud/src/brain_agent_fraud/profile.py:59-64 | A pattern is listed exactly if some pass reported it. |
| AgentProfile.TxnCountAdds | services/brain-agent-fraud/src/brain_agent_fraud/profile.py:70 | Transaction counts add up over passes. |
| AgentProfile.SoundRuns | services/brain-agent-fraud/src/brain_agent_fraud/profile.py:38-71 | On a nondecreasing clock with scores in [0, 1] everything stays in [0, 1] and the composite dominates every pattern score up to half a thousandth, exactly for whole thousandths. |
| AgentProfile.RoundingCanUndercut | services/brain-agent-fraud/src/brain_agent_fraud/profile.py:66-68 | One detection of 0.6004 gives a composite of 0.6. |
| AgentProfile.UndercutIff | services/brain-agent-fraud/src/brain_agent_fraud/detectors.py:330-333 | The composite is below the largest score exactly when that is no whole thousandth and the combination rounds down to the thousandth below it. |
| AgentProfile.NeverAboveOneIff | services/brain-agent-fraud/src/brain_agent_fraud/profile.py:46-71 | On given clock readings no scores in [0, 1] can lift a composite past 1 exactly when the readings never step back from a positive one, or nothing decays. |
| AgentProfile.ClockBackInflates | services/brain-agent-fraud/src/brain_agent_fraud/profile.py:52-57 | Two hours back in time lift a composite past 1. |
| AgentProfile.DecayProfile | services/brain-agent-fraud/src/brain_agent_fraud/profile.py:52-57 | The loop over the keys scales the composite and every score once. |
| AgentProfile.ProfileStore.Update | services/brain-agent-fraud/src/brain_agent_fraud/profile.py:38-71 | Every profile always holds what its history amounts to; a missing or zero time means the clock; other agents keep their objects. |

## Left out

- NameMatch.NameMatchScore: tokens arrive normalised and the letters of a token upper-cased; Unicode folding, case mapping and regular expressions are parameters.
- Floating point: scores, token counts and decays are exact reals. Rounding to three digits in the composite score is modelled.
- WatchlistSearch.MatchEngine.CheckName: the lookups by phone number and national id, and the logging, are not modelled.
- BrandLookalike.DetectBrandLookalike: domains arrive lower-cased without trailing dots; the shortener list and the combined analyser are not modelled.
- FirstSeen.IsNewlyRegistered: stated for positive capacities, because with others the observation raises.
- Other graph motifs (carousels, bust-outs, device fusion) and the confidences and evidence fields of the temporal joins.
- CommissionCycles.DetectCommissionFarming: the other agent detectors and the evidence text are not modelled.
- AgentProfile.ProfileStore.Update: evidence dictionaries, ranking and the anomaly list are not modelled.
- TokenBucket.RedisRateLimiter.Allow: a Redis failure, on which the caller of the script admits the request, is not modelled.
- AuditArchive.IcebergArchiver.ArchiveAgedPartitions: the scheduler's lock and two archivers working at once are not modelled; Parquet and SHA-256 are functions, so distinct contents may share a hash.
- OtpGuard.OtpGuardRunner.OnSms: the Redis variants, which count a call's age from receipt, are not modelled; recipients are E.164 numbers.
- BusinessRegistry.Encode: a cache value is a constructor; that its JSON text reads back as the same lookup is assumed.
- BusinessRegistry.Registry.LookupMsisdn: cache client failures and the in-memory registry are not modelled; operations are atomic except in InterleavedFillIsStale.
- BusinessRegistry.Registry.AddMsisdn: the kind of a number and who verified a business are not modelled; no lookup reads them.
- BusinessRegistry.Upper: case mapping covers ASCII letters only.
- DecisionPolicy.FingerprintIgnoresMatches: the fingerprint is any function of the rule lines that the code hashes.
- DefaultPolicy.MotifsAreDecided: the passive-protection section of the shipped policy is not read by the decision service and not modelled.
- DecisionPipeline.Pipeline.Reload: the two assignments of a swap are one step; directory watching and YAML parsing are not modelled.
- MuleChains.DetectMuleChains: the order of the starting wallets is left open.
- MuleChains.TotalIsWalkedIff: for minimum lengths above three the exact condition is only reduced to short chains (ShortChainsDecide).
- HTTP, Kafka, SQL, metrics, model training and language-model calls.
