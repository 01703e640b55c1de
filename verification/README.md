# Soroban payment, oracle and limits contracts in Dafny

This project models three Soroban smart contracts as pure Dafny functions over immutable state, and proves properties of that model.

- **price-oracle.** Staked oracle nodes submit prices under a rate limit. Each submission is validated and given a confidence from the asset's recent history, then kept in a 24-hour buffer. A round aggregates the fresh submissions: usable ones are filtered, outliers removed, and a weighted median computed. The round is accepted only when the result is reliable. Aggregates keep a history of at most 100 entries, and node reputations are updated from each round.
- **automated-payment-contract.** Recurring payment schedules are prefunded from the payer. They pay one amount per period, complete or deactivate by their own rules, and can be paused, cancelled with a refund, or topped up.
- **security-limits.** Per-user daily and monthly spending limits, whitelists and blacklists, per-user security metrics with a risk score, and alert rules and alerts. All of these gate `verify_transaction`.

Each contract's storage is one datatype: `OracleState`, `PaymentState` or `SecurityState`. Each entry point is a function from a state and its arguments to a new state and an outcome. The ledger time `now` is a parameter. Entry points that write storage and then return an error keep those writes; the model does not roll them back.

Modules follow the source files:

| module | models |
|---|---|
| `Wrappers`, `Common`, `Seqs` | `Option`/`Result`/`Outcome`, addresses and symbols, saturating and truncating arithmetic, sums, filters, sorting and medians |
| `OraclePrices`, `OracleNodes`, `OracleValidation`, `OracleAggregation`, `PriceOracle` | price-oracle `price_data.rs`, `oracle_node.rs`, `validation.rs`, `aggregation.rs`, `lib.rs` |
| `PaymentSchedules`, `PaymentValidation`, `PaymentContract` | automated-payment-contract `payment_schedule.rs`, `validation.rs`, `contract.rs` |
| `SpendingLimits`, `AlertRules`, `Security`, `SecurityContract` | security-limits `user_limits.rs`, `alert_rules.rs`, `security.rs`, `lib.rs` |

Several proved properties describe behaviour the code has, whatever its authors intended. They are stated as lemmas about the model as written:

- `PriceOracle.SubmitPriceNeverAggregates`: submissions never become valid, because a node's first submissions can only get confidence 50.
- `PriceOracle.SubmissionsRefusedAfterFirstWeek`: a node's last-submission time is never stamped.
- `OracleValidation.OutlierWindowVacuous`: the outlier time window never excludes anything.
- `OracleValidation.TestSignatureRefused`: the test signature is too short.
- `PaymentValidation.RequiredFundsOmitFirstPayment`: prefunding leaves out the first payment.
- `Security.RapidTermAlwaysApplies`: the one-minute risk term always applies.
- `Security.RiskCapNeverBinds`: the risk cap never binds.

## Model

| member | source | states |
|---|---|---|
| Seqs.Sort | contracts/contracts/price-oracle/src/aggregation.rs:73-74 | The result is sorted ascending and is a permutation (same multiset) of the input, as `Vec::sort` promises. |
| Seqs.SortedUnique | contracts/contracts/price-oracle/src/aggregation.rs:73-74 | Two sorted permutations of the same multiset are equal, so the sorted price vector, and with it every median taken of it, depends only on the multiset of prices. |
| Seqs.MedianBounds | contracts/contracts/price-oracle/src/aggregation.rs:76-81 | The median of a sorted non-empty vector (middle element, or floor average of the two middle ones) lies between its first and last elements. |
| Seqs.MedianSplitsHalf | contracts/contracts/price-oracle/src/aggregation.rs:128-137 | At least half the values are at most the median of the sorted values, and at least half are at least it. |
| OraclePrices.NewPriceData | contracts/contracts/price-oracle/src/price_data.rs:47-62 | A new submission carries the given asset, price, node and confidence and the ledger time; it is never stale at that time, and valid exactly when the price is positive and the confidence at least 70. |
| OraclePrices.NewAggregatedPrice | contracts/contracts/price-oracle/src/price_data.rs:74-91 | A new aggregate carries its inputs and the ledger time, and is reliable exactly when it has at least 3 sources, confidence at least 70 and deviation at most 10. |
| OraclePrices.StalenessCharacterized | contracts/contracts/price-oracle/src/price_data.rs:64-67 | Stale means more than 300 seconds old, with saturating subtraction: a timestamp in the future is never stale and exactly 300 seconds old is still fresh. |
| OraclePrices.ValidityCharacterized | contracts/contracts/price-oracle/src/price_data.rs:69-71 | Valid means price at least 1 and confidence at least 70; a zero price or a confidence of 50 is invalid. |
| OraclePrices.ReliabilityExamples | contracts/contracts/price-oracle/src/price_data.rs:93-97 | Five sources at 85% confidence and 3% deviation are reliable; two sources at 60% and 15% are not. |
| OraclePrices.ReliabilityMonotone | contracts/contracts/price-oracle/src/price_data.rs:93-97 | Reliability survives more sources, more confidence and less deviation. |
| OracleNodes.CalculateReputation | contracts/contracts/price-oracle/src/oracle_node.rs:54-61 | 100 until ten submissions are judged; from then on the floor percentage of accurate submissions, which is at most 100. |
| OracleNodes.NewNode | contracts/contracts/price-oracle/src/oracle_node.rs:41-52 | A new node is active with reputation 100, no judged submissions and last submission time 0; it is eligible at time t exactly when its stake is at least 1000 units and t is within the first week. |
| OracleNodes.UpdateReputation | contracts/contracts/price-oracle/src/oracle_node.rs:63-69 | One more judged submission, one more accurate one when it was accurate; the stored reputation stays equal to the recomputed one and at most 100; nothing else changes. |
| OracleNodes.EligibilityCharacterized | contracts/contracts/price-oracle/src/oracle_node.rs:71-81 | Eligible exactly when active, staked at least 1000 units, reputation at least 70, and at most seven days since the last submission; a node below the minimum stake never is. |
| OracleNodes.NeverStampedNodeDecays | contracts/contracts/price-oracle/src/oracle_node.rs:71-81 | A node whose last submission time was never set is stale, hence ineligible, once the ledger clock passes seven days. |
| OracleNodes.NewRateLimit | contracts/contracts/price-oracle/src/oracle_node.rs:103-111 | A new rate-limit record has an empty window starting at the ledger time. |
| OracleNodes.RecordSubmission | contracts/contracts/price-oracle/src/oracle_node.rs:113-129 | A window an hour old restarts with count 1; otherwise a submission is counted while fewer than 60 are in the window, and refused with the record unchanged once 60 are; the count never exceeds 60. |
| OracleNodes.CanSubmitPredictsRecord | contracts/contracts/price-oracle/src/oracle_node.rs:83-129 | `can_submit` holds exactly when `record_submission` would accept. |
| OracleNodes.WindowAdmitsRemainingRoom | contracts/contracts/price-oracle/src/oracle_node.rs:113-129 | Within one window a run of submissions admits exactly min(run length, 60 minus the count) of them and keeps the window start. |
| OracleNodes.SixtyFirstSubmissionRefused | contracts/contracts/price-oracle/src/oracle_node.rs:113-129 | Sixty submissions at one instant are admitted, the sixty-first is refused, and one an hour later is admitted again. |
| OracleNodes.SlashStake | contracts/contracts/price-oracle/src/oracle_node.rs:94-99 | The stake drops by the amount, saturating at 0, and a stake below 1000 units deactivates the node; a slash never reactivates it and changes nothing else. |
| OracleNodes.RegisterNode | contracts/contracts/price-oracle/src/oracle_node.rs:135-156 | Refuses a known node, then a stake below 1000 units; otherwise adds exactly the new node and a fresh rate-limit record, leaving every other node untouched. |
| OracleNodes.DeactivateNode | contracts/contracts/price-oracle/src/oracle_node.rs:158-169 | An unknown node is an error; otherwise only that node's active flag is cleared, after which it is ineligible at every time. |
| OracleNodes.GetEligibleNodes | contracts/contracts/price-oracle/src/oracle_node.rs:171-184 | Returns exactly the registered nodes that are eligible at the ledger time. |
| OracleValidation.ValidatePriceData | contracts/contracts/price-oracle/src/validation.rs:43-67 | Zero price, price above 10^13 and empty asset symbol are refused in that order; a price passes exactly when it is in 1..10^13 with a non-empty symbol, so the price-too-low error is unreachable. |
| OracleValidation.ValidateTimestamp | contracts/contracts/price-oracle/src/validation.rs:69-84 | Refuses a timestamp more than 300 seconds old, then one more than 60 seconds ahead; passes exactly the others. |
| OracleValidation.ValidateSignature | contracts/contracts/price-oracle/src/validation.rs:86-108 | An empty signature is missing, one shorter than 64 bytes is malformed; passes exactly when it has at least 64 bytes. |
| OracleValidation.TestSignatureRefused | contracts/contracts/price-oracle/src/test.rs:31 | The placeholder signature the contract's own tests submit is 59 characters long, so the length check refuses it as malformed. |
| OracleValidation.ValidatePriceUpdate | contracts/contracts/price-oracle/src/validation.rs:8-41 | Checks, in order, registration, eligibility, the rate limit, the price data, the timestamp and the signature, returning the first failure; passes exactly when all hold. |
| OracleValidation.GetRecentValidPrices | contracts/contracts/price-oracle/src/validation.rs:135-153 | Every returned price is positive and is the price of some valid entry of the history, and there are no more of them than entries. |
| OracleValidation.RecentScanOfFreshHistory | contracts/contracts/price-oracle/src/validation.rs:135-153 | When every entry is within 24 hours the scan returns exactly the valid entries' prices, newest first. |
| OracleValidation.RecentScanStopsAtOldEntry | contracts/contracts/price-oracle/src/validation.rs:142-149 | The backwards scan stops at the first entry older than 24 hours: nothing before it affects the result. |
| OracleValidation.ConfidenceTier | contracts/contracts/price-oracle/src/validation.rs:175-186 | The confidence table yields a multiple of 5 between 50 and 95: 95 exactly for deviations up to 1%, 50 exactly above 50%. |
| OracleValidation.ConfidenceTierAntitone | contracts/contracts/price-oracle/src/validation.rs:175-186 | A larger deviation never earns a higher confidence. |
| OracleValidation.ConfidenceTierValidity | contracts/contracts/price-oracle/src/validation.rs:175-186 | The table's confidence reaches the validity bar of 70 exactly for deviations up to 18%. |
| OracleValidation.CalculateHistoricalConfidence | contracts/contracts/price-oracle/src/validation.rs:155-187 | No history gives 50, a zero mean gives 0, otherwise the table entry for the floor deviation percentage from the floor mean; a price equal to the mean gets 95. |
| OracleValidation.ValidateAgainstHistoricalData | contracts/contracts/price-oracle/src/validation.rs:110-133 | The default 50 exactly when the backwards 24-hour scan finds no valid price (in particular for an empty history); otherwise the historical confidence of the new price against the scanned prices. The result is always a multiple of 5 between 50 and 95. |
| OracleValidation.NoValidHistoryGivesDefault | contracts/contracts/price-oracle/src/validation.rs:110-133 | A history without valid entries gives the default confidence of 50, which is below the validity bar. |
| OracleValidation.StaleHistoryGivesDefault | contracts/contracts/price-oracle/src/validation.rs:110-153 | A history whose newest entry is more than 24 hours old gives the default 50, whatever valid entries lie behind it. |
| OracleValidation.NodeSubmissions | contracts/contracts/price-oracle/src/validation.rs:197-200 | An order-preserving subsequence of the buffer that keeps every copy of each of the submitter's entries and drops every other node's. |
| OracleValidation.DetectRapidSubmissions | contracts/contracts/price-oracle/src/validation.rs:219-222 | Fewer than five submissions are never rapid. |
| OracleValidation.RapidIffFiveRecent | contracts/contracts/price-oracle/src/validation.rs:219-234 | Rapid exactly when at least five of the node's submissions are at most 300 seconds old. |
| OracleValidation.FiveAtOnceAreRapid | contracts/contracts/price-oracle/src/validation.rs:219-234 | Five submissions stamped now are rapid. |
| OracleValidation.OutlierWindowVacuous | contracts/contracts/price-oracle/src/validation.rs:253-254 | The time-window test of the outlier detector holds for every pair of timestamps, since one of the two saturating differences is always 0. |
| OracleValidation.OtherPricesIgnoreTime | contracts/contracts/price-oracle/src/validation.rs:249-256 | The comparison prices are therefore all other nodes' prices for the same asset, whatever their age. |
| OracleValidation.DetectConsistentOutliers | contracts/contracts/price-oracle/src/validation.rs:241-243 | Fewer than three own or five total submissions are never flagged. |
| OracleValidation.ConsistentOutliersCharacterized | contracts/contracts/price-oracle/src/validation.rs:236-281 | Flagged exactly when there are at least three own and five total submissions and the floor outlier percentage exceeds 60, that is, outliers times 100 is at least 61 times the own count. |
| OracleValidation.SortByKey | contracts/contracts/price-oracle/src/validation.rs:289-299 | The prices end up ordered by the timestamp of the first submission quoting each, as a permutation of the input. |
| OracleValidation.SortByKeyStable | contracts/contracts/price-oracle/src/validation.rs:289-299 | `sort_by` is stable: the prices sharing a key keep, in the result, the order they had in the input. |
| OracleValidation.InsertByKeyStable | contracts/contracts/price-oracle/src/validation.rs:289-299 | Inserting a price puts it after every price with the same key. |
| OracleValidation.DetectSuspiciousPatterns | contracts/contracts/price-oracle/src/validation.rs:283-286 | Fewer than four submissions are never suspicious. |
| OracleValidation.MonotoneHasNoRepeats | contracts/contracts/price-oracle/src/validation.rs:301-302 | A strictly ascending or descending vector holds no price twice. |
| OracleValidation.RepeatedPriceNeverSuspicious | contracts/contracts/price-oracle/src/validation.rs:283-305 | A node that quotes the same price twice is never flagged, whatever its other prices. |
| OracleValidation.DetectAnomalousPatterns | contracts/contracts/price-oracle/src/validation.rs:189-217 | Reports each of the three anomalies exactly when its detector fires on the submitter's entries, at most three in all, and nothing for fewer than three entries. |
| OracleAggregation.RemoveOutliers | contracts/contracts/price-oracle/src/aggregation.rs:67-99 | Fewer than three submissions are kept as they are. Otherwise the result is an order-preserving subsequence that keeps every copy of each submission within 10% (floor) of the median and drops every other submission, so it is empty when none is within the band. |
| OracleAggregation.OddCountKeepsMedianSubmission | contracts/contracts/price-oracle/src/aggregation.rs:67-99 | With an odd count of at least three the submission at the median price survives. |
| OracleAggregation.EvenSplitRemovesEverySubmission | contracts/contracts/price-oracle/src/aggregation.rs:76-96 | Prices 1, 1, 100, 100 have median 50 and every submission is removed. |
| OracleAggregation.FilterValidSubmissions | contracts/contracts/price-oracle/src/aggregation.rs:44-65 | An order-preserving subsequence of the input that keeps every copy of each participating submission and no other: one that is usable (valid, fresh, from an eligible node) and, once three or more are usable, within the outlier band around their median. |
| OracleAggregation.ValidSubmissionsMultiplicities | contracts/contracts/price-oracle/src/aggregation.rs:44-65 | Each submission occurs in the result as often as in the input when it participates, and not at all otherwise. |
| OracleAggregation.ValidSubmissionsOrder | contracts/contracts/price-oracle/src/aggregation.rs:44-65 | The result keeps the input order: usable filtering and outlier removal only delete submissions. |
| OracleAggregation.NoValidSubmissionNoParticipant | contracts/contracts/price-oracle/src/aggregation.rs:44-65 | Without a valid submission nothing is kept. |
| OracleAggregation.ReputationMultiplier | contracts/contracts/price-oracle/src/aggregation.rs:145 | Zero exactly for scores below 10; at least 7 from score 70 and at most 10 up to score 100. |
| OracleAggregation.ConfidenceMultiplier | contracts/contracts/price-oracle/src/aggregation.rs:146 | Zero exactly for confidences below 20; at least 3 from confidence 70 and at most 5 up to 100. |
| OracleAggregation.StakeMultiplier | contracts/contracts/price-oracle/src/aggregation.rs:147 | Between 1 and 5: 1 below 2000 units, 5 from 5000 units. |
| OracleAggregation.NodeWeight | contracts/contracts/price-oracle/src/aggregation.rs:143-150 | Zero exactly when the reputation is below 10 or the confidence below 20; at least 21 for an eligible node's valid submission and at most 250. |
| OracleAggregation.UsableWeight | contracts/contracts/price-oracle/src/aggregation.rs:143-150 | Every usable submission weighs at least 21. |
| OracleAggregation.WeightedPricesMember | contracts/contracts/price-oracle/src/aggregation.rs:101-141 | Every entry of the weighted price vector is the price of a submission with positive weight. |
| OracleAggregation.CalculateWeightedMedian | contracts/contracts/price-oracle/src/aggregation.rs:101-141 | No submissions and zero total weight are the two errors. The median found lies between the prices of two submissions with positive weight. That it splits the weight in halves is stated by OracleAggregation.WeightedMedianHalves. |
| OracleAggregation.WeightedMedianHalves | contracts/contracts/price-oracle/src/aggregation.rs:110-139 | The result is a weighted median. The submissions quoting at most it carry at least half the total weight, and so do the submissions quoting at least it. With an odd total weight this fixes the middle price, and with an even one a value between the two middle prices. |
| OracleAggregation.WeightedPricesCounts | contracts/contracts/price-oracle/src/aggregation.rs:110-122 | Counting the entries of the weighted price vector on either side of a value equals summing the weights of the submissions on that side. |
| OracleAggregation.WeightedMedianOrderFree | contracts/contracts/price-oracle/src/aggregation.rs:101-141 | Swapping two adjacent submissions does not change the weighted median. |
| OracleAggregation.UnanimousWeightedMedian | contracts/contracts/price-oracle/src/aggregation.rs:101-141 | When every weighted submission quotes the same price, that price is the median. |
| OracleAggregation.SourceBonus | contracts/contracts/price-oracle/src/aggregation.rs:179-184 | 0, 5, 10 or 15 for 1, 2, 3 to 5, and 6 or more sources. |
| OracleAggregation.CalculateConfidence | contracts/contracts/price-oracle/src/aggregation.rs:152-187 | At most 100, and 0 without submissions or without weight. |
| OracleAggregation.ConfidenceBetweenExtremes | contracts/contracts/price-oracle/src/aggregation.rs:152-187 | With all confidences in lo..hi and positive weight, the result lies between lo and hi plus the source bonus, capped at 100. |
| OracleAggregation.CalculatePriceDeviation | contracts/contracts/price-oracle/src/aggregation.rs:189-215 | 0 below two submissions, 100 for a zero mean, otherwise the largest per-submission floor deviation from the floor mean, capped at 100. |
| OracleAggregation.UniformPricesNoDeviation | contracts/contracts/price-oracle/src/aggregation.rs:189-215 | Equal positive prices have deviation 0. |
| OracleAggregation.AggregatePrices | contracts/contracts/price-oracle/src/aggregation.rs:8-42 | Errors for no data and no participant. A result is reliable, for the asset, and stamped now. Its price is the weighted median, its confidence the weighted confidence and its deviation the spread, each computed over the submissions that survive filtering and outlier removal. Its source count is the number of those survivors, at least 3. Its price lies between two survivors' prices with positive weight, and so between two usable submissions' prices. |
| OracleAggregation.AggregatedPriceIsWeightedMedian | contracts/contracts/price-oracle/src/aggregation.rs:8-42 | The aggregated price splits the survivors' total weight in halves: at least half is on submissions quoting at most it, and at least half on submissions quoting at least it. |
| OracleAggregation.UnreliableOnlyForSourcesOrSpread | contracts/contracts/price-oracle/src/aggregation.rs:24-41 | With a usable submission, the round is refused as unreliable exactly when there are fewer than 3 of them or their deviation exceeds 10%; the confidence test never decides it. |
| OracleAggregation.GetFallbackPrice | contracts/contracts/price-oracle/src/aggregation.rs:217-240 | Succeeds exactly when some entry is reliable and at most 30 minutes old, and then returns the newest such entry's price. |
| OracleAggregation.AccuracyCharacterized | contracts/contracts/price-oracle/src/aggregation.rs:248-260 | Accurate exactly when the aggregate is positive and the floor deviation percentage is at most 5, that is, the difference times 100 is below 6 times the aggregate. |
| OracleAggregation.UpdateOracleAccuracy | contracts/contracts/price-oracle/src/aggregation.rs:242-265 | Only the submitting node changes, by `update_reputation` with the 5% accuracy verdict: one more judged submission, one more accurate one when accurate, and the reputation recomputed from the counts. Stake, active flag and last submission time are untouched, and a node whose reputation matched its counts still does. |
| PriceOracle.Initialize | contracts/contracts/price-oracle/src/lib.rs:43-62 | Refuses a second initialization; otherwise stores admin, no stop, 3 minimum nodes, 60-second interval, and empty node, rate-limit and asset tables. |
| PriceOracle.CheckEmergencyStop | contracts/contracts/price-oracle/src/lib.rs:438-450 | Passes exactly when initialized and not stopped; the two failures are not-initialized and stop-active. |
| PriceOracle.CheckAdmin | contracts/contracts/price-oracle/src/lib.rs:424-436 | Passes exactly when initialized and the caller is the admin; the two failures are not-initialized and unauthorized. |
| PriceOracle.RegisterOracleNode | contracts/contracts/price-oracle/src/lib.rs:64-91 | Stop-gated; succeeds exactly when the registry accepts, and then stores the new node and rate-limit record and nothing else. |
| PriceOracle.FilterRecentSubmissions | contracts/contracts/price-oracle/src/lib.rs:373-384 | An order-preserving subsequence of the buffer that keeps exactly the submissions that are not stale (at most 300 seconds old). |
| PriceOracle.CleanupOldPriceData | contracts/contracts/price-oracle/src/lib.rs:386-398 | An order-preserving subsequence of the buffer that keeps exactly the submissions at most 24 hours old. |
| PriceOracle.BufferFiltersKeepEveryCopy | contracts/contracts/price-oracle/src/lib.rs:373-398 | Both buffer filters keep every copy of each passing submission and drop every other one. |
| PriceOracle.CleanupIdempotent | contracts/contracts/price-oracle/src/lib.rs:386-398 | Cleaning twice is cleaning once. |
| PriceOracle.RecentSubmissionsAreRetained | contracts/contracts/price-oracle/src/lib.rs:373-398 | Everything fresh enough to aggregate survives the 24-hour cleanup. |
| PriceOracle.UpdatePriceHistory | contracts/contracts/price-oracle/src/lib.rs:400-422 | Appends the aggregate and keeps the last 100 entries in order. |
| PriceOracle.HistoryStaysBounded | contracts/contracts/price-oracle/src/lib.rs:400-422 | The history never exceeds 100 entries and below that bound is a plain append. |
| PriceOracle.AccuracyUpdatesCount | contracts/contracts/price-oracle/src/lib.rs:351-359 | After a round each node's judged count grows by its number of submissions in the round, stake and last submission time unchanged. |
| PriceOracle.TryAggregatePrices | contracts/contracts/price-oracle/src/lib.rs:314-371 | Not-initialized fails and changes nothing. Fewer recent submissions than the configured minimum is a success that changes nothing. Otherwise an aggregator error is returned with nothing changed, and a successful aggregate is stored, appended to the history and used to judge every recent submission's node. The buffers, configuration and rate limits are never touched. |
| PriceOracle.CleanupKeepsFreshEntry | contracts/contracts/price-oracle/src/lib.rs:152-155 | Cleaning a buffer with a just-stamped entry appended equals cleaning the buffer, then appending. |
| PriceOracle.StoreSubmission | contracts/contracts/price-oracle/src/lib.rs:130-160 | The asset's buffer becomes its 24-hour survivors followed by the stamped submission; other assets' buffers and all other state stay. |
| PriceOracle.SubmitPrice | contracts/contracts/price-oracle/src/lib.rs:93-169 | The stop check and validation failures leave the state untouched; the rate limit cannot fail after validation; config and node set are preserved. |
| PriceOracle.SubmitPriceStoresSubmission | contracts/contracts/price-oracle/src/lib.rs:122-164 | An admitted submission ends last in its buffer, stamped now with its price, after the buffer's entries of the last 24 hours, whatever aggregation then does. |
| PriceOracle.SubmitPriceAdvancesRateLimit | contracts/contracts/price-oracle/src/lib.rs:122-128 | An admitted submission is counted in its node's rate-limit window (`record_submission`), and no other node's record changes. |
| PriceOracle.GetPrice | contracts/contracts/price-oracle/src/lib.rs:171-193 | Stop-gated. Missing is price-not-available; an unreliable aggregate is refused as unreliable before its age is looked at; a reliable one more than 300 seconds old is stale; otherwise the stored aggregate is returned. |
| PriceOracle.GetFallbackPriceOf | contracts/contracts/price-oracle/src/lib.rs:195-205 | Stop-gated; the newest reliable aggregate of the last 30 minutes from the asset's history, and no fallback when there is no history. |
| PriceOracle.AddSupportedAsset | contracts/contracts/price-oracle/src/lib.rs:207-228 | Admin-only; appends the asset only when not yet listed. |
| PriceOracle.SupportedAssetsStayDistinct | contracts/contracts/price-oracle/src/lib.rs:221-224 | The list of supported assets never holds a duplicate, and adding an asset twice is adding it once. |
| PriceOracle.DeactivateOracleNode | contracts/contracts/price-oracle/src/lib.rs:230-249 | Admin-only; an unknown node fails; otherwise only that node's active flag is cleared. |
| PriceOracle.SetEmergencyStop | contracts/contracts/price-oracle/src/lib.rs:251-270 | Admin-only; sets the flag and nothing else, after which the stop check passes exactly when the flag is off. |
| PriceOracle.GetOracleNodeInfo | contracts/contracts/price-oracle/src/lib.rs:272-280 | The stored node exactly when it is registered. |
| PriceOracle.GetPriceHistory | contracts/contracts/price-oracle/src/lib.rs:289-311 | The last min(limit, 100, length) entries of the asset's history, in order. |
| PriceOracle.EmergencyStopBlocksNodeOperations | contracts/contracts/price-oracle/src/lib.rs:438-450 | While stopped, registering, submitting and both price reads fail with stop-active and change nothing, and the admin can lift the stop. |
| PriceOracle.InitializeBootstraps | contracts/contracts/price-oracle/src/lib.rs:43-62 | A fresh initialization has no stamped node and no valid stored submission. |
| PriceOracle.RegisterKeepsBootstrapped | contracts/contracts/price-oracle/src/lib.rs:64-91 | Registering nodes keeps both facts. |
| PriceOracle.AdminKeepsBootstrapped | contracts/contracts/price-oracle/src/lib.rs:207-270 | Adding an asset, deactivating a node and setting the stop keep both facts. |
| PriceOracle.RoundWithoutValidSubmissions | contracts/contracts/price-oracle/src/lib.rs:314-371 | A round over a buffer without valid submissions changes nothing. |
| PriceOracle.SubmitPriceNeverAggregates | contracts/contracts/price-oracle/src/lib.rs:131-164 | From a bootstrapped state every submission gets confidence 50, so no submission is ever valid and no aggregate, history entry or reputation update is ever produced. |
| PriceOracle.SubmissionsRefusedAfterFirstWeek | contracts/contracts/price-oracle/src/oracle_node.rs:71-81 | Because submissions never stamp a node's last submission time, after the ledger's first week every submission is refused as unregistered or ineligible. |
| PaymentSchedules.Interval | contracts/contracts/automated-payment-contract/src/payment_schedule.rs:80-86 | A period is one day, one week or thirty days. |
| PaymentSchedules.CalculateNextPaymentTime | contracts/contracts/automated-payment-contract/src/payment_schedule.rs:80-86 | The next due time is exactly one period after the given time. |
| PaymentSchedules.NextPaymentTimeMonotone | contracts/contracts/automated-payment-contract/src/payment_schedule.rs:80-86 | A later payment never yields an earlier next due time. |
| PaymentSchedules.GetNextScheduleId | contracts/contracts/automated-payment-contract/src/payment_schedule.rs:51-56 | Returns the counter plus one and stores it as the new counter, touching nothing else. |
| PaymentSchedules.FreshIdsAreNew | contracts/contracts/automated-payment-contract/src/payment_schedule.rs:51-56 | An issued id is never already in use, ids strictly increase, and the first is 1. |
| PaymentSchedules.GetUserScheduleIds | contracts/contracts/automated-payment-contract/src/payment_schedule.rs:68-71 | A user's id list, empty when none is stored. |
| PaymentSchedules.AddUserSchedule | contracts/contracts/automated-payment-contract/src/payment_schedule.rs:73-78 | Appends the id to that user's list only. |
| PaymentSchedules.SetSchedule | contracts/contracts/automated-payment-contract/src/payment_schedule.rs:63-66 | Stores the schedule under its id, leaving the other schedules, the user lists and the counter as they were. |
| PaymentValidation.ValidateScheduleParams | contracts/contracts/automated-payment-contract/src/validation.rs:5-33 | Zero amount, payer equal to recipient, start in the past, end not after start are refused in that order; passes exactly otherwise. |
| PaymentValidation.ValidateFunds | contracts/contracts/automated-payment-contract/src/validation.rs:35-49 | Passes exactly when the payer's balance covers the required amount; the failure is insufficient-balance. |
| PaymentValidation.CalculateRequiredFunds | contracts/contracts/automated-payment-contract/src/validation.rs:51-71 | At least one payment; three for an open-ended schedule; one when the schedule is shorter than a period. |
| PaymentValidation.DueTimesCharacterized | contracts/contracts/automated-payment-contract/src/validation.rs:51-71 | Counts the due times of a bounded schedule: start plus k periods up to the end. |
| PaymentValidation.RequiredFundsOmitFirstPayment | contracts/contracts/automated-payment-contract/src/validation.rs:57-66 | For a schedule at least a period long the prefunding covers one payment fewer than the number of due times. |
| PaymentValidation.WeekOfDailyPayments | contracts/contracts/automated-payment-contract/src/validation.rs:57-66 | A week of daily payments has eight due times but is prefunded for seven. |
| PaymentValidation.CanExecutePayment | contracts/contracts/automated-payment-contract/src/validation.rs:73-99 | Executable exactly when the balance covers one payment, the due time (start for the first payment, next payment time after) has come, and the end time has not passed. |
| PaymentValidation.PayableUntilEnd | contracts/contracts/automated-payment-contract/src/validation.rs:73-99 | Once executable, a schedule stays executable until its end time. |
| PaymentValidation.ShouldRetryPayment | contracts/contracts/automated-payment-contract/src/validation.rs:101-103 | Retry exactly while fewer than three attempts have failed. |
| PaymentContract.InitialState | contracts/contracts/automated-payment-contract/src/contract.rs:8-70 | The empty contract keeps the escrow invariant: each schedule's deposits equal its balance plus its payments plus its refunds, and its payments equal its total paid. |
| PaymentContract.EscrowStep | contracts/contracts/automated-payment-contract/src/contract.rs:8-252 | An update of one schedule whose balance and total paid move exactly with the transfers logged for it keeps the escrow invariant. |
| PaymentContract.GetSchedule | contracts/contracts/automated-payment-contract/src/contract.rs:254-256 | The stored schedule, or schedule-not-found. |
| PaymentContract.CreateSchedule | contracts/contracts/automated-payment-contract/src/contract.rs:8-70 | Fails with the first validation error, then insufficient-balance; otherwise issues the next id, stores an active schedule with the required funds as balance and the start as first due time, lists it under payer and recipient, and logs the deposit. |
| PaymentContract.SettlePayment | contracts/contracts/automated-payment-contract/src/contract.rs:93-127 | Pays one amount, counts it, clears failures, stamps the payment, sets the next due time; a bounded schedule past its end or short of funds completes and refunds the rest; an open-ended one short of funds completes keeping its balance. |
| PaymentContract.RecordFailedAttempt | contracts/contracts/automated-payment-contract/src/contract.rs:128-141 | Counts the failure and deactivates the schedule at the third; nothing else changes. |
| PaymentContract.ExecutePayment | contracts/contracts/automated-payment-contract/src/contract.rs:72-143 | Not-found, not-active and not-due leave the state untouched; succeeds exactly when the schedule is active, due and the transfer goes through; a failed transfer is recorded and reported; balance plus total paid plus refunds is conserved. |
| PaymentContract.UpdateScheduleStatus | contracts/contracts/automated-payment-contract/src/contract.rs:145-181 | Not-found, payer-only and ended schedules are refused; the status changes only when it differs, and nothing else does. |
| PaymentContract.CancelSchedule | contracts/contracts/automated-payment-contract/src/contract.rs:183-215 | Not-found, payer-only and already-cancelled are refused; otherwise the schedule is cancelled with zero balance and its whole balance, when positive, is refunded to the payer. |
| PaymentContract.TopUpSchedule | contracts/contracts/automated-payment-contract/src/contract.rs:217-252 | Not-found, payer-only, ended and zero amount are refused, as is an amount the payer cannot cover; otherwise the balance grows by the amount and the deposit is logged. |
| PaymentContract.GetUserSchedules | contracts/contracts/automated-payment-contract/src/contract.rs:258-278 | The page of the user's ids from offset, at most limit long and clipped at the end of the list. |
| PaymentContract.CreateKeepsEscrow | contracts/contracts/automated-payment-contract/src/contract.rs:8-70 | Creating a schedule keeps the escrow invariant. |
| PaymentContract.ExecuteKeepsEscrow | contracts/contracts/automated-payment-contract/src/contract.rs:72-143 | Executing a payment, whether it succeeds or fails, keeps the escrow invariant. |
| PaymentContract.SettleKeepsEscrow | contracts/contracts/automated-payment-contract/src/contract.rs:93-127 | The success branch keeps it. |
| PaymentContract.FailedAttemptKeepsEscrow | contracts/contracts/automated-payment-contract/src/contract.rs:128-141 | The failure branch keeps it. |
| PaymentContract.UpdateStatusKeepsEscrow | contracts/contracts/automated-payment-contract/src/contract.rs:145-181 | Changing a status keeps it. |
| PaymentContract.CancelKeepsEscrow | contracts/contracts/automated-payment-contract/src/contract.rs:183-215 | Cancelling keeps it. |
| PaymentContract.TopUpKeepsEscrow | contracts/contracts/automated-payment-contract/src/contract.rs:217-252 | Topping up keeps it. |
| PaymentContract.NoSecondPaymentAtOnce | contracts/contracts/automated-payment-contract/src/contract.rs:72-143 | A schedule paid at some instant cannot be paid again at the same instant. |
| PaymentContract.ThreeFailuresDeactivate | contracts/contracts/automated-payment-contract/src/contract.rs:128-141 | Three failed transfers in a row deactivate a schedule, after which execution is refused as not active. |
| PaymentContract.OpenEndedCompletionKeepsRest | contracts/contracts/automated-payment-contract/src/contract.rs:116-121 | An open-ended schedule that completes for lack of funds keeps its remaining balance without a refund; it can no longer be topped up, only cancelled. |
| PaymentContract.BoundedCompletionRefundsRest | contracts/contracts/automated-payment-contract/src/contract.rs:105-115 | A bounded schedule that completes ends with balance 0. |
| SpendingLimits.DefaultLimits | contracts/contracts/security-limits/src/user_limits.rs:24-36 | 1000 and 10000 units with 7 decimals, nothing spent, windows anchored at 0, active. |
| SpendingLimits.NewLimits | contracts/contracts/security-limits/src/user_limits.rs:39-49 | The given limits, nothing spent, both windows starting now, active. |
| SpendingLimits.ResetDailyIfNeeded | contracts/contracts/security-limits/src/user_limits.rs:51-60 | Resets exactly when a day has passed since the last reset, clearing the daily amount and restarting the window now; otherwise nothing changes. |
| SpendingLimits.ResetMonthlyIfNeeded | contracts/contracts/security-limits/src/user_limits.rs:62-71 | The same for the 2629746-second month. |
| SpendingLimits.ResetWindowsIdempotent | contracts/contracts/security-limits/src/user_limits.rs:51-71 | Resetting twice at the same time is resetting once. |
| SpendingLimits.AddSpending | contracts/contracts/security-limits/src/user_limits.rs:82-85 | Adds the amount to both spent totals and changes nothing else. |
| SpendingLimits.RemainingDaily | contracts/contracts/security-limits/src/user_limits.rs:87-89 | Never negative, and exactly what is left when the window is not overspent. |
| SpendingLimits.RemainingMonthly | contracts/contracts/security-limits/src/user_limits.rs:91-93 | The same for the month. |
| SpendingLimits.CanSpendWithinRemaining | contracts/contracts/security-limits/src/user_limits.rs:73-93 | A positive amount can be spent exactly when the limits are active and it fits both remainders. |
| SpendingLimits.SpendLowersRemaining | contracts/contracts/security-limits/src/user_limits.rs:82-93 | A recorded admissible spend lowers both remainders by its amount. |
| SpendingLimits.TenSpendsFillTheDay | contracts/contracts/security-limits/src/user_limits.rs:73-85 | The bound is inclusive: ten spends of 100 fit a limit of 1000 and an eleventh does not. |
| SpendingLimits.InactiveCannotSpend | contracts/contracts/security-limits/src/user_limits.rs:73-76 | Inactive limits refuse every amount. |
| AlertRules.NewDailyLimitRule | contracts/contracts/security-limits/src/alert_rules.rs:40-50 | An enabled daily-limit rule with a one-day window. |
| AlertRules.NewMonthlyLimitRule | contracts/contracts/security-limits/src/alert_rules.rs:52-62 | An enabled monthly-limit rule with a 2629746-second window. |
| AlertRules.NewLargeTransactionRule | contracts/contracts/security-limits/src/alert_rules.rs:64-74 | An enabled large-transaction rule with the given threshold. |
| AlertRules.NewVelocityRule | contracts/contracts/security-limits/src/alert_rules.rs:76-86 | An enabled velocity rule with the given count and window. |
| AlertRules.NewUnknownAddressRule | contracts/contracts/security-limits/src/alert_rules.rs:88-98 | An enabled unknown-address rule without parameters. |
| AlertRules.NewAlert | contracts/contracts/security-limits/src/alert_rules.rs:102-121 | An unresolved alert carrying the given fields. |
| AlertRules.Resolve | contracts/contracts/security-limits/src/alert_rules.rs:123-125 | Marks the alert resolved and changes nothing else. |
| AlertRules.ResolveIdempotent | contracts/contracts/security-limits/src/alert_rules.rs:123-125 | Resolving twice is resolving once. |
| AlertRules.GenerateAlertId | contracts/contracts/security-limits/src/alert_rules.rs:196-202 | Returns the counter plus one and stores it. |
| AlertRules.AlertIdsIncrease | contracts/contracts/security-limits/src/alert_rules.rs:196-202 | Alert ids start at 1 and strictly increase. |
| AlertRules.StoreAlert | contracts/contracts/security-limits/src/alert_rules.rs:152-155 | Stores the alert under its user and id and leaves every other alert. |
| AlertRules.AlertIdsOf | contracts/contracts/security-limits/src/alert_rules.rs:166-176 | The ids 1..n with a stored alert for the user, ascending, each exactly once. |
| AlertRules.GetUserAlerts | contracts/contracts/security-limits/src/alert_rules.rs:162-179 | The user's stored alerts with ids 1..50 in id order, cut to the first `limit` of them. |
| AlertRules.GetUnresolvedAlerts | contracts/contracts/security-limits/src/alert_rules.rs:181-194 | Exactly the user's unresolved alerts with ids 1..50, in id order. |
| AlertRules.StoreAlertRule | contracts/contracts/security-limits/src/alert_rules.rs:128-131 | Stores the rule under its id and leaves every other rule. |
| AlertRules.EnabledRuleIds | contracts/contracts/security-limits/src/alert_rules.rs:140-147 | The ids 1..n of stored enabled rules, ascending. |
| AlertRules.GetAllAlertRules | contracts/contracts/security-limits/src/alert_rules.rs:137-150 | Exactly the enabled rules with ids 1..20, in id order. |
| AlertRules.StoredRuleListed | contracts/contracts/security-limits/src/alert_rules.rs:128-150 | A stored enabled rule with id 1..20 is listed; one with a larger id is never listed and does not change the list. |
| Security.NewMetrics | contracts/contracts/security-limits/src/security.rs:41-51 | Zero counts and amounts, risk 0, last transaction now. |
| Security.CalculateRiskScore | contracts/contracts/security-limits/src/security.rs:65-96 | Each tier adds its points (30 above 50 transactions, 25 above 100000 units with 7 decimals, 20 above 20 recipients, 15 within a minute), all zero below the low bars; capped at 100; at most 70 with ten or fewer recipients. |
| Security.RiskScoreMonotone | contracts/contracts/security-limits/src/security.rs:65-96 | More activity and a shorter gap never lower the score. |
| Security.RiskCapNeverBinds | contracts/contracts/security-limits/src/security.rs:65-96 | The points sum to at most 90, so the cap of 100 never applies. |
| Security.UpdateWithTransaction | contracts/contracts/security-limits/src/security.rs:53-63 | One more transaction, the amount added, time stamped, average as truncating division, recipients unchanged, and the score rescored at once: at least 15 and at most 100. |
| Security.RapidTermAlwaysApplies | contracts/contracts/security-limits/src/security.rs:53-96 | Rescoring right after stamping the time always counts the one-minute term, so a first small transaction already scores 15. |
| Security.ResetDailyMetrics | contracts/contracts/security-limits/src/security.rs:98-105 | Resets the metrics to those of a new user at the given time. |
| Security.GetSecurityStatus | contracts/contracts/security-limits/src/security.rs:225-234 | Blocked exactly above 80, suspicious exactly in 51..80, normal otherwise and for unknown users. |
| Security.StatusMonotone | contracts/contracts/security-limits/src/security.rs:225-234 | A higher score never gives a milder status. |
| Security.ResetUserRiskScore | contracts/contracts/security-limits/src/security.rs:246-252 | Zeroes a known user's score, leaves unknown users alone, and the status becomes normal. |
| Security.AddToList | contracts/contracts/security-limits/src/security.rs:118-128 | Adds the address with the current time and leaves other entries. |
| Security.RemoveFromList | contracts/contracts/security-limits/src/security.rs:130-138 | Removes the address and leaves other entries. |
| Security.AddThenRemove | contracts/contracts/security-limits/src/security.rs:118-138 | Removing after adding undoes the add for an unlisted address, and removal is idempotent. |
| Security.FiredDetectors | contracts/contracts/security-limits/src/security.rs:149-217 | Each detector fires exactly on its condition (blacklisted recipient, more than 100 transactions, more than 50000 units, score above 70), in detector order, at most four. |
| Security.DetectSuspiciousActivity | contracts/contracts/security-limits/src/security.rs:140-223 | Stores the updated metrics, emits the fired detectors' alerts with consecutive fresh ids, unresolved and for the user, and advances the counter by their number. |
| Security.DetectionKeepsCalm | contracts/contracts/security-limits/src/security.rs:140-223 | When no user has recipients counted and every score is at most 70, detection keeps that so, never raises a high-risk alert and never blocks the user. |
| Security.CalmNeverBlocked | contracts/contracts/security-limits/src/security.rs:225-252 | In such a state no user is blocked, and resetting a score keeps the state so. |
| Security.AtMostTwoAlertsUnlisted | contracts/contracts/security-limits/src/security.rs:140-223 | In such a state a transfer to an unlisted recipient raises at most two alerts. |
| SecurityContract.InitialState | contracts/contracts/security-limits/src/lib.rs:14 | A fresh contract: no stop, no limits, metrics or alerts, counter 0. |
| SecurityContract.LimitsOrDefault | contracts/contracts/security-limits/src/lib.rs:64 | The stored limits, or the defaults for an unknown user. |
| SecurityContract.GetUserLimits | contracts/contracts/security-limits/src/lib.rs:38-40 | The stored limits exactly when present. |
| SecurityContract.StoreAlerts | contracts/contracts/security-limits/src/lib.rs:81-83 | Stores each alert under its own key and leaves every other key; keeps alerts stored under their own keys. |
| SecurityContract.SetUserLimits | contracts/contracts/security-limits/src/lib.rs:19-35 | Refused while stopped; otherwise stores fresh limits for the user. |
| SecurityContract.RecordSpend | contracts/contracts/security-limits/src/lib.rs:90-101 | Stores the limits with the amount added and the audit record keyed by user and time. |
| SecurityContract.VerifyTransaction | contracts/contracts/security-limits/src/lib.rs:43-104 | Refuses, without touching limits or audit records, when stopped, blacklisted, over a limit after window resets, or blocked; detection may still refuse; acceptance stores the spend and the audit record. |
| SecurityContract.AddToWhitelist | contracts/contracts/security-limits/src/lib.rs:107-116 | Refused while stopped; otherwise lists the address with the time. |
| SecurityContract.AddToBlacklist | contracts/contracts/security-limits/src/lib.rs:119-128 | Refused while stopped; otherwise lists the address with the time. |
| SecurityContract.RemoveFromWhitelist | contracts/contracts/security-limits/src/lib.rs:131-135 | Always succeeds and only unlists the address. |
| SecurityContract.RemoveFromBlacklist | contracts/contracts/security-limits/src/lib.rs:138-142 | Always succeeds and only unlists the address. |
| SecurityContract.ListsIndependent | contracts/contracts/security-limits/src/lib.rs:107-142 | Changing one list never touches the other. |
| SecurityContract.BlacklistedRecipientRefused | contracts/contracts/security-limits/src/lib.rs:56-59 | After blacklisting a recipient every transfer to it is refused with nothing changed. |
| SecurityContract.CreateAlertRule | contracts/contracts/security-limits/src/lib.rs:155-179 | Stores an enabled rule of the given type under the given id and changes nothing else. |
| SecurityContract.ResolveAlert | contracts/contracts/security-limits/src/lib.rs:192-202 | Succeeds exactly for a stored alert, which becomes resolved; otherwise nothing changes. |
| SecurityContract.ResolvedAlertNotListed | contracts/contracts/security-limits/src/lib.rs:187-202 | A resolved alert leaves the unresolved list and every other unresolved alert stays in it. |
| SecurityContract.ResetRiskScore | contracts/contracts/security-limits/src/lib.rs:210-214 | Zeroes the user's score, after which the status is normal. |
| SecurityContract.GetRemainingDailyLimit | contracts/contracts/security-limits/src/lib.rs:217-223 | The stored limits' daily remainder, without applying a window reset, and 0 for an unknown user. |
| SecurityContract.GetRemainingMonthlyLimit | contracts/contracts/security-limits/src/lib.rs:226-232 | The same for the month. |
| SecurityContract.EmergencyStop | contracts/contracts/security-limits/src/lib.rs:235-239 | Sets the stop flag and nothing else. |
| SecurityContract.ResumeOperations | contracts/contracts/security-limits/src/lib.rs:242-246 | Clears the stop flag and nothing else. |
| SecurityContract.StoppedRefusesGatedCalls | contracts/contracts/security-limits/src/lib.rs:43-128 | While stopped, verification, setting and updating limits and adding to either list are refused with nothing changed. |
| SecurityContract.UpdateUserLimits | contracts/contracts/security-limits/src/lib.rs:254-279 | Refused while stopped; an unknown user gets fresh limits; a known one gets the new limits on top of its window resets, spent amounts kept. |
| SecurityContract.DisableUserLimits | contracts/contracts/security-limits/src/lib.rs:282-292 | Succeeds exactly for a known user and only clears the active flag. |
| SecurityContract.EnableUserLimits | contracts/contracts/security-limits/src/lib.rs:295-305 | Succeeds exactly for a known user and only sets the active flag. |
| SecurityContract.DisabledUserRefused | contracts/contracts/security-limits/src/lib.rs:69-71 | A disabled user's transfers are all refused; re-enabling restores the state. |
| SecurityContract.CalmVerifyAcceptsWithinLimits | contracts/contracts/security-limits/src/lib.rs:43-104 | In a calm state a transfer is accepted exactly when not stopped, the recipient is not blacklisted and the amount fits the reset limits; the state stays calm. |
| SecurityContract.RefusedAfterDetectionKeepsMetrics | contracts/contracts/security-limits/src/lib.rs:79-88 | A refusal for three alerts still stores the alerts and the updated metrics, but no spend. |
| SecurityContract.FirstTransactionUsesDefaults | contracts/contracts/security-limits/src/lib.rs:63-92 | A user without limits is held to the defaults and, once accepted, has stored limits with that spend. |
| SecurityContract.StepKeepsCalm | contracts/contracts/security-limits/src/lib.rs:19-305 | Every entry point keeps the calm state: no recipients counted, every score at most 70, alerts under their own keys. |
| SecurityContract.ReachableStatesCalm | contracts/contracts/security-limits/src/lib.rs:19-305 | Every sequence of calls from a calm state stays calm, so no user is ever blocked. |
| SecurityContract.InitialStateCalm | contracts/contracts/security-limits/src/lib.rs:14 | The fresh contract is calm. |
| SpendingLimits.ResetWindows | contracts/contracts/security-limits/src/user_limits.rs:51-71 | Both resets, daily first: a window's spent amount is cleared exactly when its period has elapsed, limits and active flag untouched. |
| AlertRules.UnresolvedIdsOf | contracts/contracts/security-limits/src/alert_rules.rs:181-194 | The ids 1..n of the user's stored unresolved alerts, ascending, and every such id. |
| AlertRules.UnresolvedListed | contracts/contracts/security-limits/src/alert_rules.rs:181-194 | Every stored unresolved alert of the user with an id in range is in the unresolved list. |
| AlertRules.EnabledRuleListed | contracts/contracts/security-limits/src/alert_rules.rs:137-150 | Every stored enabled rule with an id in range is listed. |
| AlertRules.EnabledRuleIdsIgnoreLaterIds | contracts/contracts/security-limits/src/alert_rules.rs:140-147 | Storing a rule with an id above the scanned range leaves the list unchanged. |
| Security.IssueAlerts | contracts/contracts/security-limits/src/security.rs:150-217 | One unresolved alert per fired detector, for the user, stamped now with the amount, with consecutive ids after the counter. |
| PriceOracle.ApplyAccuracyUpdates | contracts/contracts/price-oracle/src/lib.rs:351-359 | Judging each round submission in turn keeps the set of registered nodes. |
| PriceOracle.RecordRateLimit | contracts/contracts/price-oracle/src/lib.rs:122-128 | An admitted submitter is counted; other nodes' records are untouched and the counted record is stamped now. |
| PriceOracle.StoreAndAggregate | contracts/contracts/price-oracle/src/lib.rs:130-164 | Stores the stamped submission after the buffer's 24-hour survivors, other buffers, config and rate limits untouched, then runs a round. |
| OracleValidation.OtherPrices | contracts/contracts/price-oracle/src/validation.rs:249-256 | No more comparison prices than submissions. |
| OracleValidation.Reported | contracts/contracts/price-oracle/src/validation.rs:201-216 | Each anomaly is reported exactly when its detector fired, at most three. |
| OracleAggregation.WeightedPrices | contracts/contracts/price-oracle/src/aggregation.rs:110-122 | Each price repeated by its submission's weight: as many entries as the total weight. |
| OracleAggregation.MaxDeviation | contracts/contracts/price-oracle/src/aggregation.rs:198-212 | Bounds every floor deviation and is attained by one, 0 for no prices. |
| OracleAggregation.EvenSplitMedian | contracts/contracts/price-oracle/src/aggregation.rs:76-81 | Prices 1, 1, 100, 100 have the floor-average median 50. |
| OracleAggregation.UsableTotalWeight | contracts/contracts/price-oracle/src/aggregation.rs:143-150 | Usable submissions together weigh at least 21 each. |
| OracleAggregation.SourceBonusMonotone | contracts/contracts/price-oracle/src/aggregation.rs:179-184 | More sources never earn a smaller bonus. |
| Security.Tier | contracts/contracts/security-limits/src/security.rs:70-92 | One risk tier: nothing up to the low bar, the low points up to the high bar, the high points above it. |

## Left out

- Authorization (`require_auth`) is not modelled. The caller is a parameter, and the admin and payer checks compare addresses.
- Events, logs and the host's storage tiers and time-to-live are not modelled. Each contract's storage is one map-based state.
- Token transfers of the payment contract are not modelled as token calls. They become a log of deposits, payments and refunds. The transfer's success (`transferOk`) and the payer's balance (`payerBalance`) are parameters.
- Host rollback on error is not modelled. Writes made before an error are kept, as the code performs them.
- Integer widths are not modelled. `u32`/`u64`/`u128`/`i128` values become unbounded `nat`/`int`, so overflow panics, `saturating_mul` limits and `checked_add`/`checked_sub` overflow errors do not occur. The truncating `as u32` casts of deviation percentages are not modelled either: contracts/contracts/price-oracle/src/validation.rs:172 and 271, and contracts/contracts/price-oracle/src/aggregation.rs:210 and 255. They differ from the model only for a deviation of 2^32 percent or more. For example, a recent price of 1 and a new price of 2^32 + 1 give 100 * 2^32 percent. The cast makes that 0, so the source assigns confidence 95, while the model assigns 50.
- Cryptographic signature checking is not modelled: the source checks only the signature's length. The model's signature is an unbounded string. In the source it is a Soroban `Symbol` (contracts/contracts/price-oracle/src/price_data.rs:30), which holds at most 32 characters. So no real signature reaches the 64 characters `validate_signature` demands, and the 59-character `Symbol::new` of the contract's tests (contracts/contracts/price-oracle/src/test.rs:31) fails before validation runs.
- `get_supported_assets`, `is_whitelisted`, `is_blacklisted` and `is_emergency_stop_active` are plain storage reads. They are covered by the state fields they return.
- `load_user_transactions` (contracts/contracts/security-limits/src/user_limits.rs:111-124) is not modelled, because no entry point calls it.
- The payment contract's `lib.rs`, `storage.rs`, `events.rs` and `error.rs` are not part of this model beyond the error names. They hold the public wrapper, storage helpers and events.
- The test files are not modelled. They are cited only for the signature constant they use.
- PriceOracle.GetFallbackPriceOf: reads the asset's aggregate history as the sequence `update_price_history` stores. The source reads that slot back as a map keyed by symbol, which does not match the stored type. The model follows the evident intent.
- OracleValidation.ValidateAgainstHistoricalData: takes the asset's submission buffer as a sequence. The source's signature expects a map keyed by symbol, but its caller passes the per-asset buffer.
- OracleValidation.SortByKey: the sort key of a price is the timestamp of the first submission quoting it. This follows the source's lookup inside `sort_by`. The sort is stable, which OracleValidation.SortByKeyStable states: prices with equal keys keep their input order.
- SecurityContract.GetAlerts is not a separate member: `get_alerts` and `get_unresolved_alerts` are AlertRules.GetUserAlerts and AlertRules.GetUnresolvedAlerts applied to the stored alerts.
- Security.CalculateRiskScore: requires the last transaction time to be at most `now`. The source's unsigned subtraction panics otherwise.
- SpendingLimits.CanSpendWithinRemaining: is stated for positive amounts only. For an amount of 0, `can_spend` also fails once a window is overspent.
- AlertRules.StoreAlertRule: rules live in their own map from id to rule, as the separate storage key does. Rule evaluation is not modelled, since no entry point reads the rules beyond listing them.
- PriceOracle.RecordRateLimit: states that an admitted submitter is counted, and what happens to the other records. The count inside the window is stated by OracleNodes.RecordSubmission.
- PriceOracle.ApplyAccuracyUpdates: ensures only that the node set is kept. The per-node counts are stated by PriceOracle.AccuracyUpdatesCount.
- OracleAggregation.CalculateConfidence: ensures bounds only. ConfidenceBetweenExtremes states where the weighted average lies.
- PriceOracle.SubmitPrice: its contract covers the refusals and the preserved configuration. What an admitted submission stores is stated by PriceOracle.SubmitPriceStoresSubmission, and what a round does by PriceOracle.TryAggregatePrices.
