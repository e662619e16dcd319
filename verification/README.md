# magi-core, modelled and proved

A Dafny model of three parts of the `magi-core` crate, with proofs of the properties those parts
exist for.

- **The retry engine** (`src/provider.rs`, `src/backoff.rs`). `RetryLoop.Complete` is the loop of
  `RetryProvider::complete` over a scripted world: for each inner call a duration, an outcome, the
  raw `Retry-After` values, a receipt time and the random value drawn afterwards. It refines a
  declarative trace that says, call by call, when the call starts and whether another one follows.
  `RetryWaits` says what a run looks like from outside; `RetryBounds`, `RetryLaws`, `RetryMixed`,
  `RetryCeilings` and `RetryWindow` reason about whole runs; the worlds that attain the bounds come from
  `RetryWitnesses`.
- **Consensus and deduplication** (`src/consensus.rs`, `src/finding_id.rs`, `src/schema.rs`). The fold
  over findings refines "group by key"; grouping is a homomorphism; `DedupMeaning` and `ConsensusReport`
  state the results from the reports and the votes alone.
- **Bounded text** (`src/error.rs`, `src/reporting.rs`). UTF-8 truncation by a search over bytes, and
  the fixed-width banner, column by column in `BannerLayout`.

Check it with `dafny verify dfyconfig.toml`.

## How the model reads

Durations are whole nanoseconds up to the largest `Duration`, where arithmetic saturates; instants are
nanoseconds on one clock. Sleeping takes exactly the time asked for. A random value is a real, an
infinity or NaN. Scaling a duration by a factor is an arbitrary function of which only two facts are
known: a zero factor gives zero, and one second scales to at most one second; every further assumption
on rounding is a `requires` that says by how much a pause may round up. Scores and confidences are exact
reals. Strings are sequences of code points with their real UTF-8 encoding.

`hide` statements in proofs only withhold a definition from the verifier; they assume nothing.

## Where the documentation and the code disagree

The model follows the code; these are the places where a documented claim is narrower than its wording.

- The ceiling documented for mixed chains, `operation_budget + max(client_timeout, retry_after_cap +
  jitter)` (751 s as shipped; src/provider.rs:1079-1091), does not hold for every run: a throttled
  response that itself takes long, followed by an honoured wait, overstays it. The longest run is
  computed exactly (`RetryMixed.LongestMixedRun`) for every configuration that grants limited classes one
  retry at most, does not limit `Http`, and has no formula cap above the longest honoured wait. There the
  ceiling holds for all runs if and only if the last unlimited failure that is retried, starting as late
  as the budget and the failures before it allow, fits with its sleep, and a first call that hangs fits
  with its pause (`RetryCeilings.DocumentedCeilingIff`, for every budget, retry count and rounding). As
  shipped this is `min(quick, client_timeout) + 301 s <= max(client_timeout, 301 s) + 1 ns`, where `quick`
  is the longest an unlimited failure takes (`RetryCeilings.ShippedCeilingIff`). The retry count matters:
  with one retry 751 s holds for calls of 300 s (`RetryCeilings.RetriesDecideCeiling`).
- When unlimited failures take no time and `cap` is at most `retry_after_cap + jitter`, the ceiling holds
  as soon as the budget covers the smaller of the two documented terms (300 s against 450 s as shipped),
  limited `Http` failures included (`RetryCeilings.DocumentedMixedChainBound`). Where `Http` is limited
  that condition is also necessary for whole-second caps (`RetryCeilings.LimitedHttpCeilingIff`).
- The bound that holds for every run adds both documented terms (`RetryBounds.WallClockBound`). Exactly,
  it is `RetryBounds.LongestRun`, which some run attains (`RetryCeilings.WallClockBoundIsTight`).
- The longest honoured wait is the cap in whole seconds plus the jitter: only whole seconds can be asked
  for, so a cap with a fraction never yields `retry_after_cap + jitter` (`RetryBounds.LongestHonoured`).
- The ceiling of the budget window is documented as the point above which a `Retry-After` chain reaches
  its third check (src/provider.rs:964-965, src/provider.rs:1019-1022). Exactly, two honoured waits,
  equal or not, with or without receipt times, keep every run from a third call if and only if the budget
  is at most their sum (`RetryWindow.CutBySecondCheckIff`). Budgets between 600 s and 603 s lie in the
  window and are not cut when two calls that ask for 300 s are instant and draw no jitter
  (`RetryWindow.WindowCeilingOverstates`).
- The floor of the window guarantees the second attempt as long as the sum it is made of does not
  saturate; the exact threshold is one nanosecond above the cost of the first attempt, for every failure
  class and every rounding (`RetryWindow.SecondAttemptIff`).

## Model

| member | source | states |
|---|---|---|
| RetryAfterHeader.ParseRetryAfter | src/backoff.rs:52-113 | The nested loops, the whole-second comparison and the early exits compute exactly the duration-level decision. |
| RetryAfterHeader.ParseValue | src/backoff.rs:66-96 | One trimmed value parses exactly when all its comma segments are the same number. |
| RetryAfterHeader.DecisionMeaning | src/backoff.rs:37-113 | The first readable value decides alone: honoured exactly when positive and within the cap, too long exactly when above it, absent exactly when zero; unintelligible exactly when there is a cap, a header, and nothing reads, and then with the joined values. |
| RetryAfterHeader.HonouredWholeSeconds | src/backoff.rs:98-106 | Whatever is honoured is at least one second and at most the cap in whole seconds. |
| RetryAfterHeader.MergedPartsAgree | src/backoff.rs:66-93 | A merged list reads as a number exactly when every part does. |
| RetryAfterHeader.MergedCopiesDecideAlike | src/backoff.rs:66-93 | Any number of comma-merged copies of one decimal decides like one copy, for every cap. |
| RetryAfterHeader.PaddedCopiesDecideAlike | src/backoff.rs:61-93 | However merged copies are spaced with blanks and tabs, they decide as the number itself: honoured within the cap, too long above it, absent at zero. |
| RetryAfterHeader.MergedWithSpaces | src/backoff.rs:61-93 | The usual form of a merged header, with a space behind the comma, is honoured. |
| HeaderText.ParseMeaning | src/backoff.rs:72-95 | A segment parses to a number exactly when it is an optional plus, leading zeros and that number in decimal. |
| HeaderText.SegmentsIgnoreTrim | src/backoff.rs:61-67 | Trimming a value before splitting it changes no trimmed segment. |
| HeaderText.TrimOfPadded | src/backoff.rs:61-67 | Trimming removes exactly the spaces and tabs around a text that begins and ends visibly. |
| HeaderText.WhitespaceIsListed | src/backoff.rs:61-67 | White space is the 25 code points with the Unicode property. |
| Backoff.Sanitize | src/backoff.rs:260-276 | The factor is in [0, 1]; in-range values are kept; NaN and infinities become zero. |
| Backoff.NextBackoff | src/backoff.rs:181-252 | An honoured wait is never undercut nor exceeded by more than the jitter; a formula wait never exceeds the cap under any rounding; an out-of-contract random value means no jitter. |
| Backoff.DoublesUntilCapped | src/backoff.rs:236-241 | Outside the flat classes the ceiling starts at the base and doubles until it meets the cap (or the 31st attempt); flat classes never grow. |
| Backoff.JitterSpansInterval | src/backoff.rs:190-191 | Full jitter reaches both ends: zero and the whole ceiling, or the whole extra second on an honoured wait. |
| Backoff.FormulaGrowth | src/backoff.rs:236-241 | The formula before jitter is at most `base * 2^attempt`, saturation and the exponent limit included. |
| ProviderErrors.UnwrappedWhenAbandoned | src/provider.rs:1392-1395 | Of the retryable errors, exactly external failures and unreadable responses come back unwrapped from an abandonment. |
| RetryLoop.Complete | src/provider.rs:1690-1883 | The loop makes exactly the calls of the trace, between 1 and `max_retries + 1`, returns the trace's result at the trace's time, always has an original error to abandon with, and never takes the post-loop fallback. |
| RetryLoop.Attempt | src/provider.rs:1749-1868 | One attempt pauses exactly when the failure is worth retrying, for exactly the trace's wait; otherwise it returns the trace's result. |
| RetryLoop.InterpretHeader | src/provider.rs:1760-1812 | The header gives an honoured wait less the time already passed, or an abandonment, or nothing. |
| RetryLoop.RunExists | src/provider.rs:1699-1868 | Every environment has a run of at most `max_retries + 1` calls. |
| RetryLoop.RunUnique | src/provider.rs:1699-1868 | The number of calls is determined by the configuration and the environment. |
| RetryWaits.FormulaPause | src/provider.rs:1848-1867 | The exact pause between a failure and the next call, for every retry index, draw and rounding. |
| RetryWaits.FullPause | src/backoff.rs:236-251 | With a full draw that pause is the base, doubled with every failure before it up to the cap, or flat. |
| RetryWaits.HonouredPause | src/provider.rs:1764-1781 | The exact pause after an honoured header: what is left of the request plus the scaled jitter. |
| RetryWaits.RetriedFailures | src/provider.rs:1402-1450 | Exactly which failures get another call when nothing else stands in the way. |
| RetryWaits.ReasonGiven | src/provider.rs:1738-1846 | The reason of an abandonment in terms of the header's own values, before the class is looked at, or of the time the whole run took. |
| RetryWaits.ShippedServerDown | src/provider.rs:995-1008 | As shipped, a server that stays down is called four times, one, two and four seconds apart. |
| RetryWaits.ShippedPausesLevelOff | src/backoff.rs:236-241 | With more retries the shipped pauses would double up to 32 s and stay at 60 s. |
| RetryWaits.ShippedHang | src/provider.rs:995-1008 | As shipped, an endpoint that hangs is called twice, one second apart at most. |
| RetryBounds.StartsInsideBudget | src/provider.rs:1700-1747 | Every call after the first starts strictly inside the budget. |
| RetryBounds.WallClockBound | src/provider.rs:1699-1868 | If calls take at most `ct`, no run takes longer than the longest one, computed from budget, retries, call time and longest sleep; so it ends within budget, plus `ct`, plus the larger of the two sleep caps. |
| RetryBounds.LimitedFailureCount | src/provider.rs:1814-1846 | Any run, mixed chains included, meets at most `limited_max_retries + 1` failures of limited classes. |
| RetryBounds.HangChainBound | src/provider.rs:1067-1078 | A chain that fails only by hanging ends within `(1 + limited_max_retries) * ct + limited_max_retries * base_delay`, plus any rounding slack per pause. |
| RetryBounds.ShippedHangChain | src/provider.rs:1076-1077 | As shipped that is 601 s, with no assumption on rounding. |
| RetryMixed.MixedChainBound | src/provider.rs:1079-1091 | With at most one limited retry, no mixed run takes longer than the longest one, computed from what the first and the later failures can cost, for any rounding slack. |
| RetryMixed.LongestMixedRunExists | src/provider.rs:1079-1091 | Some run takes exactly that long, for every budget, retry count, call time and slack. |
| RetryMixed.FirstHangRun | src/provider.rs:1814-1867 | A single limited call can use up its time and the longest first sleep, whether a header or a pause. |
| RetryCeilings.DocumentedMixedChainBound | src/provider.rs:1079-1091 | The ceiling as documented, when unlimited failures take no time and the budget covers the smaller documented term, or the pause after a hang. |
| RetryCeilings.DocumentedCeilingIff | src/provider.rs:1079-1091 | For every budget, retry count, call time and rounding slack: the documented ceiling holds for every run if and only if the last retried failure and a first hang fit in it. |
| RetryCeilings.LastFailureAtTheEnd | src/provider.rs:1079-1091 | Where earlier failures reach the end of the budget, the first of those conditions compares one failure and its sleep with the larger documented term. |
| RetryCeilings.CeilingHolds | src/provider.rs:1079-1091 | The two conditions suffice in every configuration with at most one limited retry. |
| RetryCeilings.FirstHangMustFit | src/provider.rs:1079-1091 | The condition on the first hang is necessary in every configuration. |
| RetryCeilings.LimitedHttpCeilingIff | src/provider.rs:1079-1091 | Where `Http` is itself limited, and header-less unlimited failures fit, the ceiling holds exactly when the first failure with its sleep fits: for whole-second caps, when the budget covers the smaller documented term. |
| RetryCeilings.ShippedCeilingIff | src/provider.rs:1079-1091 | The shipped case of that condition, with no assumption on rounding. |
| RetryCeilings.ShippedCeilingIsExceeded | src/provider.rs:1079-1091 | 751 s is exceeded by some run whose calls take at most 300 s, and by none if unlimited failures are instant. |
| RetryCeilings.RetriesDecideCeiling | src/provider.rs:1079-1091 | With one retry 751 s holds for calls of 300 s; with two retries and a budget of 800 s the ceiling fails. |
| RetryCeilings.WallClockBoundIsTight | src/provider.rs:1699-1868 | A run that takes exactly the longest time, for every budget and call time, with the retries left to `Http` failures. |
| RetryWitnesses.ArriveByThrottles | src/provider.rs:1760-1868 | `Http` failures with receipt times and random values below one bring a call to the last instant of the budget, or as far as their number allows. |
| RetryMixed.ArriveAfterHang | src/provider.rs:1760-1868 | Where those do not suffice, a limited first hang and full steps after it arrive exactly. |
| RetryWitnesses.EveryJitterIsDrawn | src/backoff.rs:226-231 | With rounding to the nearest nanosecond every jitter up to the whole second is drawn by a random value below one. |
| RetryWindow.BudgetWindow | src/provider.rs:954-991 | The window is well formed and is the documented pair of sums, saturating. |
| RetryWindow.ShippedWindow | src/provider.rs:1008-1014 | As shipped the window is 302 s to 603 s. |
| RetryWindow.FloorGuaranteesSecondAttempt | src/provider.rs:956-963 | A budget at or above the floor always starts the second attempt after any first failure without a usable header, rounding of the pause below one second included. |
| RetryWindow.SecondAttemptIff | src/provider.rs:956-963 | For every rounding slack, the second attempt is guaranteed if and only if the budget exceeds the first attempt plus the longest pause. |
| RetryWindow.CutBySecondCheckIff | src/provider.rs:964-965 | Two honoured waits, received at any time during their calls, keep every run from a third call if and only if the budget is at most their sum. |
| RetryWindow.WindowCeilingOverstates | src/provider.rs:1014-1022 | A budget of 602 s lies inside the shipped window and does not cut a chain of two waits of 300 s. |
| RetryLaws.ErrorIdentity | src/provider.rs:1607-1651 | A mage-local last error comes back unchanged; a different error is a typed abandonment of a run-wide one, counting exactly the calls made. |
| RetryLaws.AbandonedExactlyWhen | src/provider.rs:1738-1846 | Exactly which last failures are replaced by an abandonment, across all three sites. |
| RetryLaws.HonouredTiming | src/provider.rs:1764-1781 | The next call starts between receipt plus the wait asked and that (or now) plus the jitter, for every gap and random value. |
| RetryLaws.RaisingLimitsExtendsRun | src/provider.rs:1699-1868 | Raising the counts or the budget keeps every old call at its old time and never cuts a success short. |
| RetryLaws.RaisingLimitsKeepsSuccess | src/provider.rs:1699-1868 | A successful run stays the same run, with the same result and finish. |
| RetryLaws.TimeIsAccountedFor | src/provider.rs:1749-1867 | Time passes only in calls and waits. |
| RetryLaws.FormulaWaitsCapped | src/backoff.rs:236-251 | The waits of an n-wait formula chain sum to at most `n * cap`, whatever the rounding. |
| RetryLaws.FormulaWaitsGeometric | src/backoff.rs:236-251 | They sum to at most `base * (2^n - 1)` plus `n` times what rounding may add to one. |
| FindingId.NormalizePathInPlace | src/finding_id.rs:18-28 | Both loops terminate, and together equal one pass that collapses slash runs after stripping `./`. |
| FindingId.CollapseAfterHalving | src/finding_id.rs:24-26 | One non-overlapping replacement of double slashes keeps the collapsed form. |
| FindingId.HalvingShrinks | src/finding_id.rs:24-26 | The replacement shortens any path that still holds a double slash. |
| FindingId.NormalizePathCanonical | src/finding_id.rs:18-28 | The result has no backslash, no double slash and no leading `./`, and exactly such paths are left alone. |
| FindingId.NormalizePathIdempotent | src/finding_id.rs:18-28 | Normalising twice is normalising once. |
| FindingId.NormalizePathForgets | src/finding_id.rs:18-28 | A leading `./`, the kind of slash and doubled slashes make no difference. |
| FindingId.PayloadInjective | src/finding_id.rs:44-49 | Payloads agree exactly when normalised path, line and category do, although paths may hold colons. |
| FindingId.GenerateFindingId | src/finding_id.rs:44-56 | The hex loop renders the first eight digest bytes of the payload. |
| FindingId.IdentifierMeaning | src/finding_id.rs:42-56 | Identifiers agree exactly when those digest bytes do, and without a collision exactly when the locations do. |
| FindingId.FlawSlugWords | src/schema.rs:339-361 | The kebab-case names of the flaw categories. |
| FindingId.OtherSlugWords | src/schema.rs:339-361 | The kebab-case names of the other categories. |
| FindingId.HexMeaning | src/finding_id.rs:51-54 | Each byte becomes two lower-case digits, the high half first. |
| FindingId.GoldenPayloads | src/finding_id.rs:139-152 | Three spellings of one path give the payload of the pinned vector. |
| FindingId.MoreGoldenPayloads | src/finding_id.rs:153-161 | The payloads of the other pinned vectors. |
| Dedup.DeduplicateFindings | src/consensus.rs:451-536 | The nested loops over the group vector compute "group by key" followed by the stable descending sort. |
| DedupMeaning.SameKeyMeansSameIssue | src/consensus.rs:200-217 | Findings share a group exactly when normalised path, line and category agree, or both lack a place and their folded titles agree; the identifier is that of the place. |
| DedupMeaning.DeduplicateMeaning | src/consensus.rs:437-536 | The whole result from the reports alone: naming by the first report of an issue, severity and detail by the first most severe one, sources in order, one entry for every issue, ordered by severity and first report. |
| Dedup.TableStep | src/consensus.rs:481-516 | One find-or-insert step is one more report in the reference. |
| Dedup.KeysDistinct | src/consensus.rs:490-516 | One group per distinct key, and a group for every report. |
| Dedup.SeverityAndDetail | src/consensus.rs:485-489 | Severity is the group maximum and the detail comes from the first finding that reaches it. |
| Dedup.SourcesMeaning | src/consensus.rs:490-499 | Sources are exactly the reporting agents, each once, in order of first report. |
| Dedup.NoReportLost | src/consensus.rs:477-518 | Every report is in exactly one group, at least as severe, that names its agent. |
| Dedup.GroupsPartitionStream | src/consensus.rs:477-518 | The groups partition the reports: their sizes add up. |
| Dedup.GroupIdentity | src/consensus.rs:195-217 | Located and unlocated findings never share a group, and a group has an identifier exactly when all its members are located. |
| Dedup.KeyStringInjective | src/consensus.rs:481-484 | The prefixed key strings are equal exactly when the keys are. |
| Dedup.StableSortUnique | src/consensus.rs:532-535 | The stable descending sort has one solution: the three severity classes, each in first-seen order. |
| DedupAlgebra.TableOfConcatenation | src/consensus.rs:477-518 | Grouping a concatenated stream is merging the two groupings. |
| DedupAlgebra.MergeIsMonoid | src/consensus.rs:477-518 | On all tables with distinct keys, merging is associative, stays within them, and has the empty table as unit. |
| DedupAlgebra.DeduplicateInParts | src/consensus.rs:477-535 | The agents may be split anywhere: only the concatenated stream matters. |
| DedupAlgebra.DeduplicateTwice | src/consensus.rs:441-450 | One agent reporting a deduplicated list gets the same list back, with itself as the only source. |
| Consensus.NewEngine | src/consensus.rs:224-240 | A minimum of zero becomes one, and any other is kept. |
| Consensus.FirstRepeat | src/consensus.rs:262-271 | The loop stops at the first agent whose name came before, if there is one. |
| Consensus.Determine | src/consensus.rs:253-386 | Fails on too few agents first and then on the first repeated name, and otherwise returns the synthesis. |
| Consensus.ClassificationIsExact | src/consensus.rs:404-434 | With epsilon below half a vote, each label and the verdict are exact integer conditions on the counts. |
| Consensus.LabelIntervals | src/consensus.rs:388-434 | For every epsilon up to one half, the label of every score, boundaries included: a score of exactly epsilon is a hold. |
| Consensus.ConsensusByCounts | src/consensus.rs:292-305 | The label after the degraded-mode cap, and the verdict, as functions of three counts. |
| ConsensusReport.LabelTextByCounts | src/consensus.rs:292-305 | The printed label, from three counts. |
| ConsensusReport.ScoreByCounts | src/consensus.rs:276-277 | The score in half votes is `2a + c - 2r`. |
| Consensus.VerdictIsThreshold | src/consensus.rs:388-403 | For every epsilon the verdict is a single threshold on the score; up to one half the threshold is epsilon itself. |
| Consensus.VerdictMonotone | src/schema.rs:60-71 | A more favourable vote never turns an approval into a rejection, for any epsilon. |
| Consensus.VerdictAgainstCount | src/consensus.rs:27-34 | The verdict never approves against the count, and rejects against it exactly when conditionals are too weak. |
| Consensus.DetermineIgnoresOrder | src/consensus.rs:262-384 | Success, label, verdict, score, confidence, votes and recommendations do not depend on the order of the agents. |
| Consensus.CollectMeaning | src/consensus.rs:343-361 | With distinct names, the votes and recommendations hold exactly what each agent reported. |
| Consensus.DissentMatchesVotes | src/consensus.rs:327-358 | With distinct names, an agent is listed as dissenting, in its own words, exactly when its recorded vote differs from the emitted verdict; everyone else is on the emitted side. |
| ConsensusReport.FiledUnderOwnName | src/consensus.rs:343-361 | With distinct names, votes and recommendations hold each agent's own, and nothing else. |
| ConsensusReport.ListsSayWhoAndWhat | src/consensus.rs:327-358 | Summary, dissent and conditions entry by entry, in input order. |
| Consensus.WeightMeaning | src/consensus.rs:307-322 | Half of the share is certain and half is in proportion to the distance from a tie: all of it for a unanimous score, half at zero. |
| ConsensusReport.ConfidenceByCounts | src/consensus.rs:307-321 | Times `4 n^2`, the unrounded confidence is the sum of the emitted side's confidences times the distance from a tie plus `2n`, in half votes. |
| ConsensusReport.ReportedConfidence | src/consensus.rs:322-323 | The report is a whole number of cents, the nearest, of two the larger, and clamped to the unit interval. |
| ConsensusReport.TwoToOneAtNinety | src/consensus.rs:307-323 | Two approvals at 0.9 against one rejection report 0.40. |
| Consensus.SideConfidenceIsTheSides | src/consensus.rs:308-320 | The confidences summed are those of the emitted side and of nobody else. |
| Consensus.ConfidenceIsFaithful | src/consensus.rs:307-322 | The reported confidence is in [0, 1]; for confidences in [0, 1] the clamp never acts and the report is within 0.005 of the exact value. |
| Utf8.FloorIsTakeBytes | src/error.rs:578-586 | The byte search finds exactly the longest prefix of whole characters, so the cut is valid UTF-8. |
| Utf8.TakeBytesMaximal | src/error.rs:551-561 | That prefix fits, the next character would not, and at most three bytes are wasted. |
| Utf8.FloorIsNear | src/error.rs:576-577 | The search steps back at most three bytes. |
| Utf8.EncodeCharRoundTrip | src/error.rs:578-586 | Every character is encoded by a well-formed sequence of RFC 3629 that stands for it. |
| BoundedText.BytesEncodeMarkedText | src/error.rs:578-586 | The computation on bytes yields the encoding of the marked text, for every text and cap. |
| BoundedText.MarkWithinCapMeaning | src/error.rs:545-586 | The result fits the cap and is a maximal prefix of the text followed by the marker, or a maximal piece of the marker. |
| BoundedText.MarkedEdgeValues | src/error.rs:562-570 | The documented edge values for caps 0 to 4 and 16, for every text. |
| BoundedText.CappedMeaning | src/error.rs:718-726 | A capped text fits, is unchanged exactly when it already did, and otherwise ends in the marker. |
| BoundedText.MessagesNeverExceedCaps | src/provider.rs:1471-1485 | External messages and composed transport messages never exceed their caps, are unchanged exactly when they fit, and keep their kind. |
| BoundedText.EndpointSurvivesCut | src/provider.rs:1465-1470 | A cut transport message still starts with its operation and endpoint when they leave room for the marker. |
| BoundedText.TransportMessageWhole | src/provider.rs:1471-1485 | A message that fits says operation, endpoint and causes, and no colon without a cause. |
| BoundedText.NewResponseContract | src/error.rs:672-685 | The detail is truncated in place to its first 256 characters. |
| Banner.CheckParts | src/reporting.rs:767-794 | Accepts exactly wide enough banners with ASCII titles, and reports an offending field with its value. |
| Banner.NamesAreSorted | src/reporting.rs:777-792 | The fields are checked agent by agent in alphabetical order. |
| Banner.FormatBanner | src/reporting.rs:883-929 | The appending loops emit exactly the lines of the banner, joined by line feeds. |
| BannerLayout.BannerShows | src/reporting.rs:863-929 | The lines in order and column by column: rules, title, one line for each agent, consensus. |
| BannerLayout.AgentLineUncut | src/reporting.rs:903-912 | Borders, the heading from column 3, the verdict from the common column, and blanks everywhere else. |
| BannerLayout.AgentLineCut | src/reporting.rs:905-912 | A cut line keeps its verdict at the border behind an ellipsis. |
| Banner.PercentageIsNearest | src/reporting.rs:908 | The printed percentage is the nearest whole one and stays between 0 and 100 for a confidence in [0, 1]. |
| Banner.PercentageSaturates | src/reporting.rs:908 | Outside the unit interval the percentage is the nearest one still, and saturates at the ends of its type. |
| Banner.FitInventsNothing | src/reporting.rs:112-119 | The fitted text is the input, or pieces of it around the ellipsis; no suffix is invented. |
| Banner.FitAscii | src/reporting.rs:130-196 | For ASCII a truncated text fills its width exactly and keeps the suffix whenever it fits beside the ellipsis. |
| Banner.EveryLineFillsWidth | src/reporting.rs:863-929 | Every line is exactly `banner_width` bytes, for every accepted configuration, any agents and any ASCII label. |
| Banner.SuffixSurvives | src/reporting.rs:863-915 | Each agent line keeps its verdict suffix: at the common column when uncut, flush with the border when cut. |
| Banner.EngineBannerIsRectangular | src/reporting.rs:883-929 | Every label the engine can emit gives a rectangular banner. |

## Left out

- Real HTTP, subprocesses, task scheduling and tracing: the inner provider is a script, and a sleep never overshoots.
- Clock reads inside one attempt: the end of the call, the header discount and the start of the sleep share one instant.
- RetryCeilings.DocumentedCeilingIff: not for more than one limited retry, nor for a formula cap above the longest honoured wait (in particular not for a `retry_after_cap` below one second, unless the formula cap is zero), where the bounds of the formula waits depend on the attempt.
- RetryCeilings.LimitedHttpCeilingIff: exact only where unlimited failures, which carry no header there, fit in the ceiling.
- RetryCeilings.WallClockBoundIsTight: meets the bound where the formula cap is at most the longest honoured wait and either `Http` has the general retry count or the retries it has reach the end of the budget.
- RetryWitnesses.ArriveByThrottles: a step of less than a second is made by headers that arrived up to a second before the call ended, even if the call itself was shorter.
- RetryLoop.Complete: cancellation of the call by an outer timeout, which ends a run without a result.
- `dangerous_settings`: warning text over comparisons the theorems already use.
- The completion telemetry carried by `EmptyCompletion` and the texts of `NoGeneration`: payload that no decision reads.
- Floating-point rounding of scores and confidences: reals; a NaN confidence is outside the model.
- The algorithm of the library's stable sort: it is modelled by its contract, which `Dedup.StableSortUnique` shows to have one solution.
- The cells of the group vector are values replaced in place, not objects: nothing else refers to them in the source.
- DedupMeaning.DeduplicateMeaning: for reports whose places the first eight digest bytes keep apart; places that collide share a group, as in the source.
- SHA-256 is any function to 32 bytes, and title folding (cleaning, NFKC, case folding) any function on strings.
- Fail-soft deserialisation of findings and `normalize_category`.
- `FinishReason::from_wire`, model aliases and default models: finite tables.
- The initialisation banner and the markdown sections of the report.
- Banner.EveryLineFillsWidth: a line is what the formatter emits as one; a title that itself holds a line feed is ASCII and is accepted, as in the source.
- The orchestrator, lineage rotation, verdict extraction, the command-line provider, the examples and the scripts under `ci/`.
