# NexusRAG control-plane and data-path proofs

A Dafny model of the parts of NexusRAG where state, arithmetic or many requests interact, with proofs of what
those parts promise. `dafny verify dfyconfig.toml` checks everything.

Where the source updates state, the model is a class or a method with the source's loop, proved equal to a
specification function; the promises are lemmas about those functions and about whole runs of them. Instants
are integers (or reals) that callers supply; external calls, clocks and random values are parameters.

| file | models |
|---|---|
| `RateLimit.dfy` | the dual token bucket: one atomic script over a key bucket and a tenant bucket |
| `Failover.dfy`, `FailoverRuns.dfy`, `FailoverAnswers.dfy` | token-gated promotion and rollback with every commit visible, between any two of which tokens may be issued and the freeze toggled; runs of them, cut off anywhere; what callers are told, and when they succeed |
| `CircuitBreaker.dfy` | the breaker with local state |
| `Quota.dfy` | day and month counters with hard and soft caps |
| `SortFields.dfy`, `Base64.dfy`, `Cursor.dfy`, `Keyset.dfy`, `Paging.dfy`, `DocumentListing.dfy`, `DocumentRoute.dfy` | sort strings, signed cursors, the keyset filter, paging through a changing table, and the route that puts them together |
| `Chunking.dfy`, `Sse.dfy` | paragraph chunks with offsets; the event-stream reader and the writer it reads from |
| `Evaluator.dfy`, `Abac.dfy`, `DocumentAccess.dfy` | the condition language, deny-first policies, single and batch document authorization |
| `Scoring.dfy` | nDCG |
| `Wrappers.dfy`, `Text.dfy`, `Filtering.dfy`, `Json.dfy` | shared vocabulary: results, string searching and trimming, order-keeping filters, JSON values |

## Where the code meets its promise only on a condition

The model follows the code; each lemma named here gives the exact condition, or every input of a failing family.

* Any step back of the clock refills the same interval twice: `RateLimit.BackwardsClockOveradmits`.
* The retry hint is exact only for requests no larger than both bursts: `RateLimit.RetryHintExact`.
* Calls alone are refused for ever exactly when the trials of a half-open stretch are spent, or the breaker is open
  with no opening time or no trials to give: `CircuitBreaker.StarvesExactlyWhenSpent`. Trials that never report back
  lead there: `CircuitBreaker.UnreportedTrialsStarve`.
* Window after window never reaches the end of the text exactly when the overlap is no smaller than the window and the
  text does not fit in one: `Chunking.WindowsEndExactly`.
* A paragraph longer than a window does not move the search on, so a short one behind it is located within it if it
  occurs there: `Chunking.FoundFromLastFitting`, `Chunking.ShortBehindLongIsPlacedExactly`.
* nDCG exceeds 1 at every discount, the logarithmic one included, exactly when the leading ranks are all relevant and
  more hits follow them, as for the ranking a, a where only a is relevant: `Scoring.AboveOneAtEveryDiscountExactly`. It
  stays within 1 at every discount exactly when hits do not outnumber the relevant documents
  (`Scoring.BoundedExactlyWithoutExcessHits`); with excess hits below a gap it depends on the discount.
* `set_write_freeze` takes no failover lock. Writes are held back from the freeze of a promotion to its end exactly
  when no operator lifts the freeze meanwhile and the promotion did not load a freeze that was lifted before it wrote
  its own: `FailoverRuns.FreezeEnvelope`. Every promotion that passes its precheck has a run in which its region serves
  writes before it is verified: `FailoverRuns.LiftedFreezeOpensGate`. A freeze that lands after the row was loaded unfrozen outlives a rollback
  (`FailoverRuns.RollbackReturnsToPromotedFrom`) and, where the instance does not freeze for promotions itself, a
  completed promotion (`FailoverRuns.PromotionEnds`), although either reports writes unfrozen.
* A failed precheck appends `failed` to a history from which the transition table does not reach it:
  `FailoverRuns.HistoryFollowsTableExactlyPastPrecheck`, `FailoverRuns.RefusalLeavesTable`. A failed verification, and a failed precheck whose
  target is already primary, leave writes frozen: `FailoverRuns.PromotionEnds`.
* `sort_token` is undone by `parse_sort` exactly for names without commas, outer white space, or (ascending) a
  leading `-`: `SortFields.SortRoundTrip`.
* Text that reads as an ISO date comes back from a cursor as an instant (`Cursor.ValueRoundTrip`), and a request at
  such a cursor compares a text column with a timestamp: `DocumentListing.DateLikeTextBreaksTheCursor`.
  `DocumentListing.ListDocuments` fails exactly for a cursor that does not fit its columns or where it has to go on
  from a row with such text, which listings sorted by other columns never do (`DocumentListing.OtherColumnsNeverFail`).
* Decoding a cursor escapes with a TypeError exactly when the signature part is not ASCII, and with a
  UnicodeDecodeError exactly when it signs bytes that are not UTF-8: `Cursor.EscapesExactlyOnForeignSignature`.
* Validation refuses every condition that holds an empty one below the top, which evaluation counts as true:
  `Evaluator.NestedEmptyConditionIsRefused`.
* The order of policies makes a difference to access exactly when no consulted deny policy matches or fails, and the
  consulted allow policies include both one that matches and one that fails: `Abac.OrderMattersExactly`.

## Model

| member | source | states |
|---|---|---|
| RateLimit.RateLimiter.Check | nexusrag/apps/api/rate_limit.py:234-305 | the decision, scope, hint and remaining balances returned, and the whole store left behind, are those of the script run on what expiry left |
| RateLimit.KeyAndTenantBucketsDiffer | nexusrag/apps/api/rate_limit.py:246-247 | no key bucket is ever a tenant bucket, whatever the ids and route classes |
| RateLimit.BucketsTellCallersApart | nexusrag/apps/api/rate_limit.py:246-247 | two callers share a bucket exactly when id and route class agree, for route classes without a colon |
| RateLimit.TtlCoversRefill | nexusrag/apps/api/rate_limit.py:202-206 | a bucket idle for its time to live has refilled completely |
| RateLimit.TtlIsLeast | nexusrag/apps/api/rate_limit.py:202-206 | the time to live is the least number of seconds, at least one, in which the bucket would fill twice |
| RateLimit.CallArmsExpiry | nexusrag/apps/api/rate_limit.py:113-121 | a call stamps both buckets with its time and re-arms their expiry from there |
| RateLimit.EvictionInvisible | nexusrag/apps/api/rate_limit.py:120-121 | dropping expired buckets changes no available balance |
| RateLimit.RefillComposes | nexusrag/apps/api/rate_limit.py:75-90 | saturating refill in two steps equals refill in one, within [0, burst] |
| RateLimit.CallChargesExactly | nexusrag/apps/api/rate_limit.py:103-121 | a call lowers each bucket it touches by its cost when admitted and every other balance by nothing, and keeps the store valid |
| RateLimit.AdmittedExactlyWhenCovered | nexusrag/apps/api/rate_limit.py:106-108 | a call is admitted exactly when both balances cover its cost |
| RateLimit.ReplyTellsBalances | nexusrag/apps/api/rate_limit.py:278-304 | the remaining numbers are the whole balances left in the key's and in the tenant's bucket |
| RateLimit.ScopeNamesLongerWait | nexusrag/apps/api/rate_limit.py:288-305 | an admission names no scope; a denial's hint is the longer of the two waits, and its scope the tenant exactly when the tenant's is longer |
| RateLimit.BalancesStayInRange | nexusrag/apps/api/rate_limit.py:75-121 | after every run, every balance is within [0, burst] |
| RateLimit.AdmittedWithinBalance | nexusrag/apps/api/rate_limit.py:103-121 | from any valid store, a run admits at most the balance at its first call plus the gain up to its last |
| RateLimit.RateBound | nexusrag/apps/api/rate_limit.py:75-121 | in every window of every run, each bucket admits at most burst plus rate times the window |
| RateLimit.BackwardsClockOveradmits | nexusrag/apps/api/rate_limit.py:83-85 | for any two readings, stepping back from the later to the earlier lets a run past the bound |
| RateLimit.DeniedAndExpiredInvisible | nexusrag/apps/api/rate_limit.py:113-121 | deleting denied checks from a run and never expiring a bucket changes no other decision and no exact balance at the end |
| RateLimit.RetryAfterLeast | nexusrag/apps/api/rate_limit.py:192-199 | the hint is the least whole number of milliseconds that covers the deficit |
| RateLimit.RetryHintExact | nexusrag/apps/api/rate_limit.py:278-305 | the hint of a denial is the exact wait after which the same request is admitted, exactly when the cost fits both bursts |
| CircuitBreaker.CircuitBreaker.BeforeCall | nexusrag/services/resilience.py:188-203 | whether the call is admitted, and the new state, follow the transition function |
| CircuitBreaker.CircuitBreaker.RecordSuccess | nexusrag/services/resilience.py:205-212 | a success closes any breaker and clears its counters |
| CircuitBreaker.CircuitBreaker.RecordFailure | nexusrag/services/resilience.py:214-225 | a failure opens a half-open breaker, and a closed one at the threshold |
| CircuitBreaker.ClosedExactlyBelowThreshold | nexusrag/services/resilience.py:175-225 | over every run the breaker is closed exactly while fewer failures than the threshold followed the last success, and then counts them |
| CircuitBreaker.OpensAtThresholdFailure | nexusrag/services/resilience.py:220-225 | a closed breaker opens exactly at the threshold-th failure in a row |
| CircuitBreaker.OpenAdmitsExactlyLateTrials | nexusrag/services/resilience.py:188-203 | after an opening exactly the calls that come the open period later or more are let through, up to the trials, at whatever times |
| CircuitBreaker.OpenAdmitsAtOnce | nexusrag/services/resilience.py:188-203 | of several calls at one time, as many as there are trials are let through once the open period is over, and none before |
| CircuitBreaker.ReportFromHalfOpen | nexusrag/services/resilience.py:205-219 | a failure reported from half-open begins the wait and the trials again from that instant; a success lets every call through |
| CircuitBreaker.SuccessClears | nexusrag/services/resilience.py:205-212 | after a success nothing is counted, and one failure opens only at a threshold of one |
| CircuitBreaker.OpenBreakerRateBound | nexusrag/services/resilience.py:188-203 | from an opening on, without a success, at most trials times the whole open periods gone by are admitted |
| CircuitBreaker.AnyStretchRateBound | nexusrag/services/resilience.py:188-225 | from any tripped state of any run, one more round of trials bounds what is admitted |
| CircuitBreaker.ReachedStatesAreCovered | nexusrag/services/resilience.py:175-225 | every state a run reaches is closed or covered by the rate bound |
| CircuitBreaker.StarvesExactlyWhenSpent | nexusrag/services/resilience.py:188-203 | calls alone, at whatever times, are refused for ever exactly from a half-open breaker with its trials spent or an open one without opening time or trials |
| CircuitBreaker.UnreportedTrialsStarve | nexusrag/services/resilience.py:188-225 | from the start, a threshold of failures, the wait and trials that never report back end in refusing calls for ever |
| Quota.QuotaService.CheckAndConsumeQuota | nexusrag/services/quota.py:66-159 | the answer, both counters, the markers and the events emitted are those of the specification |
| Quota.QuotaService.GetOrCreateCounter | nexusrag/services/quota.py:508-542 | a missing counter is created at zero and no other changes |
| Quota.QuotaService.TryInsertSoftCap | nexusrag/services/quota.py:576-599 | a marker is inserted at most once |
| Quota.QuotaService.InsertSoftCapEvent | nexusrag/services/quota.py:545-573 | exactly the periods at their soft cap and not yet marked are marked and reported, day first |
| Quota.CountersAreAdmittedCosts | nexusrag/services/quota.py:97-121 | every counter is the cost admitted in its period, in every reachable state |
| Quota.MonthIsSumOfDays | nexusrag/services/quota.py:119-121 | a month counter is the sum of that month's day counters, in every reachable state |
| Quota.RefusalChangesNothing | nexusrag/services/quota.py:106-117 | a refused request changes no counter or marker and emits nothing |
| Quota.AnswerReportsCounters | nexusrag/services/quota.py:108-124 | the snapshots show limit, use and what the limit leaves of the counters left behind, and the mode |
| Quota.AnswerTellsSoftCap | nexusrag/services/quota.py:202-218 | the soft cap is reported reached exactly when the use of that day or of that month is at least its limit's share |
| Quota.NoPlanNoLimits | nexusrag/services/quota.py:86-91 | without a plan nothing is refused or reported |
| Quota.BlockedExactlyOnOverrun | nexusrag/services/quota.py:103-117 | a request is refused exactly when the cap is hard and it would overrun what was admitted before; the month is named first |
| Quota.HardCapHolds | nexusrag/services/quota.py:103-121 | with fixed limits and the hard cap on, no counter ever passes its limit |
| Quota.SoftCapFiresOnFirstReach | nexusrag/services/quota.py:213-218 | a period's soft-cap event is emitted by the first admitted request that finds or brings its use to the plan's share of the limit, and by no other |
| Failover.FailoverService.IssueFailoverToken | nexusrag/services/failover.py:438-481 | an unused token with its expiry is added for a supported purpose, and nothing else changes |
| Failover.FailoverService.ConsumeToken | nexusrag/services/failover.py:484-505 | a usable token of the purpose is marked used in one commit, or nothing changes |
| Failover.FindTokenFindsUsable | nexusrag/services/failover.py:488-499 | a token is found exactly when some usable one exists, and it is usable |
| Failover.FailoverService.SetWriteFreeze | nexusrag/services/failover.py:551-591 | one commit sets the freeze and leaves primary and epoch alone |
| Failover.FailoverService.EnforceWriteGate | nexusrag/services/failover.py:594-654 | writes pass exactly when the gate does not apply or the row is unfrozen, this region is primary and its lag is acceptable |
| Failover.FailoverService.ExecutePromotion | nexusrag/services/failover.py:763-889 | the commits from precheck to completion or failure, in order and with what others commit between them, and the error raised |
| Failover.FailoverService.PromoteRegion | nexusrag/services/failover.py:673-891 | every commit of a promotion in order, with whatever others commit between any two of them, and its outcome: repeated, refused, failed or completed |
| Failover.FailoverService.RollbackFailover | nexusrag/services/failover.py:894-970 | every commit of a rollback in order, with what others commit before its last, and its outcome |
| FailoverAnswers.PromotionSucceedsExactly | nexusrag/services/failover.py:686-722 | a promotion succeeds exactly when it is taken on, nothing its probes saw stands against it or it is forced, and it verifies; a finished request id is answered anyway |
| FailoverAnswers.PromotionFailsFor | nexusrag/services/failover.py:656-671 | the error of a failed promotion, by what was sent and seen, in order |
| FailoverAnswers.SuccessReportsBlockers | nexusrag/services/failover.py:347-376 | a promotion reports each blocker that stood against it, once and in order, and no other |
| FailoverAnswers.RepeatReportsItsEvent | nexusrag/services/failover.py:693-715 | the answer to a finished request id is what its event and the row say, and nothing is committed |
| FailoverAnswers.AnswerMatchesTables | nexusrag/services/failover.py:724-889 | answer or error agree with the row and the event the promotion leaves, whatever others commit meanwhile |
| FailoverAnswers.UndisturbedPromotionLeaves | nexusrag/services/failover.py:748-876 | every column of the row a promotion leaves when nobody else commits |
| FailoverAnswers.RollbackSucceedsExactly | nexusrag/services/failover.py:906-924 | a rollback succeeds exactly when it is taken on with a region to go back to; otherwise its error |
| FailoverAnswers.RollbackAnswerMatchesTables | nexusrag/services/failover.py:917-970 | its answer agrees with the row and the event it leaves, whatever others commit meanwhile |
| FailoverAnswers.UndisturbedRollbackLeaves | nexusrag/services/failover.py:936-952 | every column of the row a rollback leaves when nobody else commits |
| FailoverAnswers.FreezeShows | nexusrag/services/failover.py:551-591 | the operator's switch shows in the row's state and moves nothing else |
| FailoverAnswers.TableIsExactly | nexusrag/services/failover.py:93-106 | from where each state can be entered |
| FailoverAnswers.GateOpenExactly | nexusrag/services/failover.py:611-629 | a mutation or run passes exactly on an unfrozen row, in its primary region and role, with a lag of at most the maximum where that counts; anything else always passes |
| FailoverAnswers.GateAgreesWithPrecheck | nexusrag/services/failover.py:622-629 | a lag shuts a region's gate exactly when it stands against its promotion |
| FailoverRuns.PromotionIsRun | nexusrag/services/failover.py:673-891 | what a promotion of the service commits is what a run of single steps passes through, so all that follows holds of it |
| FailoverRuns.RollbackIsRun | nexusrag/services/failover.py:894-970 | the same of a rollback |
| FailoverRuns.EpochRisesWithPrimary | nexusrag/services/failover.py:780-789 | over every run, cut off anywhere, each commit keeps the epoch or adds one to it, and the primary changes only with it |
| FailoverRuns.WritesOfOneEpochShareRegion | nexusrag/services/failover.py:611-629 | any two writes let through under one epoch come from one region, and epochs never fall |
| FailoverRuns.MovesPerInterval | nexusrag/services/failover.py:720-722 | in any interval the primary moves at most once more than the interval holds cooldowns, whatever others commit |
| FailoverRuns.RollbackReturnsToPromotedFrom | nexusrag/services/failover.py:917-942 | a rollback lands on the region the latest promotion past its precheck took over from, goes on exactly when there is one, and lifts the freeze exactly if it loaded it |
| FailoverRuns.TokensAreOneTime | nexusrag/services/failover.py:502-505 | no token is consumed twice in any run |
| FailoverRuns.MovesConsumeIssuedTokens | nexusrag/services/failover.py:484-505 | every move is by an operation that consumed a token of the right purpose, unexpired, unused and issued earlier |
| FailoverRuns.MovesUseDistinctTokens | nexusrag/services/failover.py:502-505 | no two moves are by one token |
| FailoverRuns.UncutPromotionFinishes | nexusrag/services/failover.py:797-889 | a promotion that starts and is not cut off leaves its event finished |
| FailoverRuns.FinishedStays | nexusrag/services/failover.py:693-705 | once a request id's latest event is finished, it stays so through any later operations |
| FailoverRuns.RepeatedPromotionChangesNothing | nexusrag/services/failover.py:693-715 | repeating a finished promotion commits nothing and reports its event |
| FailoverRuns.FreezeEnvelope | nexusrag/services/failover.py:748-834 | from a promotion's freeze to its end no region lets a gated write through, at any commit of anyone, exactly when the freeze took and nobody lifted it |
| FailoverRuns.LiftedFreezeOpensGate | nexusrag/services/failover.py:748-790 | every promotion that freezes and passes its precheck has a run in which an unfreeze between its commits lets its region write before it is verified |
| FailoverRuns.GateShutExactlyWhenFrozen | nexusrag/services/failover.py:611-629 | no region lets a gated write through exactly while the row is frozen |
| FailoverRuns.PromotionEnds | nexusrag/services/failover.py:857-876 | how primary, epoch and freeze stand after completion, failed verification and failed precheck, for any freeze setting and whatever others did meanwhile |
| FailoverRuns.HistoryFollowsTableExactlyPastPrecheck | nexusrag/services/failover.py:93-106 | in every state of every run, every event's history is a path of the transition table, except that of a promotion its precheck refused |
| FailoverRuns.RefusalLeavesTable | nexusrag/services/failover.py:857-877 | every promotion refused by its precheck has a run that leaves an event off the table |
| SortFields.SortToken | nexusrag/services/ui_query.py:37-43 | the token lists the fields in order, `-` before descending ones |
| SortFields.ParseSort | nexusrag/services/ui_query.py:46-72 | the fields read, the default, or the name refused |
| SortFields.FieldsAreFirstMentions | nexusrag/services/ui_query.py:57-69 | the result lists each mentioned field once, in the order and direction of its first mention |
| SortFields.AcceptsExactlySupported | nexusrag/services/ui_query.py:65-67 | a sort is accepted exactly when every field it mentions is allowed |
| SortFields.RefusesFirstUnsupported | nexusrag/services/ui_query.py:65-67 | a refusal names the first unsupported mention |
| SortFields.SortRoundTrip | nexusrag/services/ui_query.py:37-72 | parsing undoes the token of allowed fields without repeats exactly when every field is clean |
| SortFields.CommaInNameIsLost | nexusrag/services/ui_query.py:58 | a field name with a comma does not survive |
| SortFields.NoFieldsReadAsDefault | nexusrag/services/ui_query.py:37-54 | the token of no fields reads as no sort at all, the default |
| SortFields.TokenIsNormalForm | nexusrag/services/ui_query.py:37-72 | the token of any accepted sort parses back to the same fields |
| Base64.RoundTrip | nexusrag/services/ui_query.py:125-137 | every byte string survives base64url encoding, stripping the padding, adding it back and decoding |
| Base64.EncodeIsLetters | nexusrag/services/ui_query.py:125 | the encoding holds no separator and no padding, and the padding added back is the padding stripped |
| Base64.RefusedExactlyOneOver | nexusrag/services/ui_query.py:135-139 | of texts over the alphabet, decoding refuses exactly those one letter too long |
| Base64.LettersAreUrlSafe | nexusrag/services/ui_query.py:125-137 | the letters are those of the URL-safe alphabet in order, and reading also takes the standard two |
| Base64.EarlyPadsAreSkipped | nexusrag/services/ui_query.py:135-137 | a pad before a quad needs one is skipped |
| Base64.NothingReadPastPadding | nexusrag/services/ui_query.py:135-137 | complete padding ends the text |
| Cursor.ValueRoundTrip | nexusrag/services/ui_query.py:75-96 | a value comes back from a cursor exactly when it is not text that reads as a date |
| Cursor.OwnCodecIsUsed | nexusrag/services/ui_query.py:75-86 | a column's own serializer and parser take precedence |
| Cursor.BuildCursorPayload | nexusrag/services/ui_query.py:99-118 | the payload holds scope, tenant, sort token, id and each field's serialized value |
| Cursor.ValuesHoldEveryField | nexusrag/services/ui_query.py:108-110 | every sort field's value is found under its name |
| Cursor.PayloadSays | nexusrag/services/ui_query.py:111-118 | what a payload holds under each of its names, and that its values are those of the sort fields only |
| Cursor.CursorRoundTrip | nexusrag/services/ui_query.py:121-149 | decoding undoes encoding of a payload that JSON reads back, under a secret that signs it alike, and reports a bad signature under any other |
| Cursor.AcceptedIsSigned | nexusrag/services/ui_query.py:129-149 | a payload is only ever read from bytes signed under the secret |
| Cursor.EscapesExactlyOnForeignSignature | nexusrag/services/ui_query.py:140-142 | decoding escapes its error handling with a TypeError exactly on a decodable token with a non-ASCII signature, and with a UnicodeDecodeError exactly on a signature of bytes that are not UTF-8 |
| Cursor.ForeignSignatureEscapes | nexusrag/services/ui_query.py:140-142 | every encoding followed by a signature that is not ASCII escapes |
| Cursor.GenuineSignaturesDoNotEscape | nexusrag/services/ui_query.py:129-149 | with only readable payloads signed, no token with an ASCII signature escapes |
| Cursor.TokenTellsSortsApart | nexusrag/services/ui_query.py:37-43 | parsed sorts have the same token only when they are the same sort |
| Cursor.CursorAcceptedExactlyInItsContext | nexusrag/services/ui_query.py:152-171 | a minted cursor that JSON reads back is accepted exactly in its own scope, tenant and sort, and holds what was minted |
| Keyset.BuildCursorFilter | nexusrag/services/ui_query.py:174-210 | the filter built by the loops is the disjunction of branches, and no sort fields is an error |
| Keyset.FilterSelectsRowsAfter | nexusrag/services/ui_query.py:190-210 | the filter holds of a row exactly when it is strictly after the cursor in lexicographic order with the id tie-break |
| Keyset.RowStandsAtItsColumns | nexusrag/services/ui_query.py:187-208 | a row is compared by its own column values and id |
| Keyset.OrderIsStrictAndTotal | nexusrag/services/ui_query.py:187-208 | rows with different ids are ordered exactly one way |
| Keyset.MintedCursorStandsAtRow | nexusrag/services/ui_query.py:99-118 | a minted cursor stands at its row exactly when each sort value survives serialization |
| Paging.PagesStrictlyIncrease | nexusrag/apps/api/routes/ui.py:526-602 | rows handed out strictly increase, whatever happens to the table between pages |
| Paging.CollectedWereShown | nexusrag/apps/api/routes/ui.py:526-602 | every row handed out was in the table and readable at that request |
| Paging.NothingLostNothingRepeated | nexusrag/apps/api/routes/ui.py:526-602 | on reaching the last page, every row there throughout was handed out exactly once |
| Paging.PagesOfFixedTable | nexusrag/apps/api/routes/ui.py:526-602 | over a fixed table the pages are its successive stretches |
| Paging.PagingEndsWithTheTable | nexusrag/apps/api/routes/ui.py:526-602 | over a fixed table paging ends after one request per started page, with the whole table |
| DocumentListing.AuthorizedRows | nexusrag/apps/api/routes/ui.py:533-574 | the batches yield the readable rows after the cursor in order, all of them or more than a page of the first ones; a database error comes exactly of a cursor that does not fit or of going on from date-like text |
| DocumentListing.ListDocuments | nexusrag/apps/api/routes/ui.py:509-602 | the page is the first readable rows after the cursor, with a next cursor exactly when more follow; the request fails exactly as its batches do |
| DocumentListing.SessionNeverRepeats | nexusrag/apps/api/routes/ui.py:509-602 | the answers of a client that follows the cursors as long as it is answered strictly increase, over any changes to table and rights |
| DocumentListing.FinishedSessionLosesNothing | nexusrag/apps/api/routes/ui.py:509-602 | a finished session has answered every row present and readable throughout exactly once |
| DocumentListing.SessionOfFixedTable | nexusrag/apps/api/routes/ui.py:509-602 | a session over a fixed table ends, after the pages it takes, with exactly the readable rows |
| DocumentListing.DateLikeTextBreaksTheCursor | nexusrag/services/ui_query.py:88-95 | a row's cursor is comparable with the columns exactly when none of its sort values is text that reads as a date |
| DocumentListing.OtherColumnsNeverFail | nexusrag/apps/api/routes/ui.py:509-602 | sorted by columns other than text, an answered session's next request never fails |
| DocumentRoute.UiDocuments | nexusrag/apps/api/routes/ui.py:455-602 | the sort, the token and the database are each refused or failed exactly when they must be, in that order, and otherwise the page and its signed token are returned |
| DocumentRoute.TokenOpensExactlyItsListing | nexusrag/apps/api/routes/ui.py:483-496 | a reply's token opens a request exactly when tenant and parsed sort are the reply's, and stands where the reply ended |
| DocumentRoute.TokensNeverRepeat | nexusrag/apps/api/routes/ui.py:455-602 | a client that follows tokens, with whatever sort strings, receives strictly increasing rows of one listing |
| DocumentRoute.TokensLoseNothing | nexusrag/apps/api/routes/ui.py:455-602 | once a reply holds no token, every row present and readable throughout was received exactly once |
| DocumentRoute.TokensOfFixedTable | nexusrag/apps/api/routes/ui.py:455-602 | over a fixed table the tokens run out after one request per started page, with exactly the readable rows |
| Chunking.WindowText | nexusrag/ingestion/chunking.py:10-19 | the loop ends when the overlap is below the size or the text fits one window, and yields the specified windows |
| Chunking.WindowsEndExactly | nexusrag/ingestion/chunking.py:13-19 | stepping from the start, some window reaches the end of the text exactly when the overlap is below the size or the text fits one window |
| Chunking.WindowsBeginAtStarts | nexusrag/ingestion/chunking.py:13-19 | the windows begin exactly where those steps stand |
| Chunking.DefaultWindowsBegin | nexusrag/ingestion/chunking.py:6-7 | at the default sizes windows begin 1050 after each other |
| Chunking.WindowsAreSlices | nexusrag/ingestion/chunking.py:14-16 | each window is the text at its offsets, nonempty and no longer than the size |
| Chunking.WindowsOverlap | nexusrag/ingestion/chunking.py:17-19 | consecutive windows share exactly the overlap |
| Chunking.WindowsRebuildText | nexusrag/ingestion/chunking.py:10-19 | dropping the overlap of every later window and joining gives the text back |
| Chunking.WindowCount | nexusrag/ingestion/chunking.py:10-19 | a text longer than the size has one window plus one for each started stride |
| Chunking.ChunkText | nexusrag/ingestion/chunking.py:22-39 | the chunks yielded are those of the stripped nonblank paragraphs in order |
| Chunking.OffsetsLocateParagraphs | nexusrag/ingestion/chunking.py:29-37 | the search never fails: every paragraph that fits is the text at its offsets, in order and apart |
| Chunking.FoundFromLastFitting | nexusrag/ingestion/chunking.py:29-39 | a paragraph that fits is looked for from the end of the last one before it that fits; longer ones between are not skipped |
| Chunking.ShortBehindLongIsPlacedExactly | nexusrag/ingestion/chunking.py:29-39 | a short paragraph behind a long one gets its true offsets exactly when it occurs nowhere earlier |
| Chunking.ChunksTileText | nexusrag/ingestion/chunking.py:29-37 | when all paragraphs fit, offsets are true positions with only white space outside them |
| Text.SplitIsExact | nexusrag/ingestion/chunking.py:29 | splitting loses nothing and leaves no separator in a piece |
| Sse.StreamRun | frontend/src/lib/sse.ts:50-80 | the events delivered are those of the concatenated text, however it was cut into reads |
| Sse.ReadFrame | frontend/src/lib/sse.ts:65-71 | the last event and data lines of a frame are the ones that count |
| Sse.LastEventLineNames | frontend/src/lib/sse.ts:65-71 | the event type is the value of the last event line, or `message` |
| Sse.LastDataLineCounts | frontend/src/lib/sse.ts:65-71 | the data is the value of the last data line, or none |
| Sse.FrameYieldsEvent | frontend/src/lib/sse.ts:62-79 | a blank frame or malformed data is silent; any other frame is one event, with the empty object when it has no data |
| Sse.SpaceByCode | frontend/src/lib/sse.ts:63-70 | what counts as white space, by code point |
| Sse.ReadFrames | frontend/src/lib/sse.ts:62-79 | one event for each frame that is neither blank nor malformed, in order |
| Sse.ReadExtendsFrames | frontend/src/lib/sse.ts:56-60 | splitting a growing buffer and keeping its last piece loses no frame, even when a cut falls inside the separator |
| Sse.MessageRoundTrip | nexusrag/apps/api/routes/run.py:113-120 | a message written by the API is read as one event with its name and payload |
| Sse.StreamRoundTrip | nexusrag/apps/api/routes/run.py:113-120 | a stream of messages, with an unfinished one behind it, is read as exactly its messages |
| Evaluator.ValidatedConditionsStayShallow | nexusrag/services/authz/evaluator.py:45-78 | a validated condition evaluates within the maximum depth of nested calls |
| Evaluator.ValidatedConditionsFailOnlyInComparators | nexusrag/services/authz/evaluator.py:109-127 | a validated condition can fail only inside a comparator |
| Evaluator.PlainAcceptedExactly | nexusrag/services/authz/evaluator.py:45-52 | which conditions without an operator are accepted |
| Evaluator.ComparisonAcceptedExactly | nexusrag/services/authz/evaluator.py:109-148 | a comparison is accepted exactly by its operator and a depth of two |
| Evaluator.NegationAcceptedExactly | nexusrag/services/authz/evaluator.py:109-148 | a negation is accepted exactly when what it negates is, one level down |
| Evaluator.ListAcceptedExactly | nexusrag/services/authz/evaluator.py:109-148 | all and any are accepted exactly when they hold a list whose items are accepted one level down |
| Evaluator.ComparisonEvaluates | nexusrag/services/authz/evaluator.py:80-107 | a comparison means what its comparator says, and fails as it does |
| Evaluator.DeMorgan | nexusrag/services/authz/evaluator.py:71-78 | not, all and any obey De Morgan, down to which failure surfaces |
| Evaluator.DoubleNegation | nexusrag/services/authz/evaluator.py:77-78 | negating twice changes neither truth nor failure |
| Evaluator.FirstToDecideDecides | nexusrag/services/authz/evaluator.py:71-76 | all and any answer with their first deciding item; later failures never surface |
| Evaluator.NoneDecides | nexusrag/services/authz/evaluator.py:71-76 | with no deciding item all is true and any is false |
| Evaluator.NestedEmptyConditionIsRefused | nexusrag/services/authz/evaluator.py:61-68 | every condition with an empty one below its top is refused by validation, though evaluation counts an empty one as true |
| Abac.EvaluatePolicySet | nexusrag/services/authz/abac.py:134-198 | the two passes decide as specified, with the trace of every policy consulted |
| Abac.ConsultEffect | nexusrag/services/authz/abac.py:151-183 | a pass stops at the first policy of its effect that matches or fails |
| Abac.AllowedExactlyWhen | nexusrag/services/authz/abac.py:151-198 | access is allowed exactly when no deny policy matches or fails and the first decisive allow policy matches, or none is decisive and the default allows |
| Abac.PolicyForOthersHasNoSay | nexusrag/services/authz/abac.py:144-153 | a policy that is disabled or for another resource or action changes nothing of the decision, wherever it stands |
| Abac.DenyInScopeRefuses | nexusrag/services/authz/abac.py:146-184 | an enabled deny policy for the resource and action that matches or fails refuses |
| Abac.AllowInScopePermits | nexusrag/services/authz/abac.py:146-184 | an enabled allow policy for them that matches permits, unless one of theirs fails or a deny matches |
| Abac.DecisionNamesItsPolicy | nexusrag/services/authz/abac.py:156-198 | the policy and reason a decision names are those that made it, or the default |
| Abac.TraceTellsTheWay | nexusrag/services/authz/abac.py:149-184 | every step of the trace, its order and where it ends |
| Abac.UnaskedTraceIsEmpty | nexusrag/services/authz/abac.py:165-198 | a trace not asked for is empty and changes nothing else |
| Abac.AddedDenyNeverAllows | nexusrag/services/authz/abac.py:151-183 | adding a deny policy anywhere never turns a refusal into an allow |
| Abac.VerdictWithoutFailures | nexusrag/services/authz/abac.py:151-198 | without failing conditions the verdict depends only on which policies match |
| Abac.OrderDoesNotMatterWithoutFailures | nexusrag/services/authz/abac.py:151-198 | without failing conditions the verdict is the same for every order of the policies |
| Abac.OrderMattersExactly | nexusrag/services/authz/abac.py:151-198 | every reordering allows the same exactly when some consulted deny matches or fails, or the consulted allows do not include both a match and a failure |
| Abac.OrderMattersWithFailures | nexusrag/services/authz/abac.py:157-172 | two validated policies, one of which fails when evaluated, allow in one order and refuse in the other |
| Abac.StoredConditionMeansItself | nexusrag/services/authz/abac.py:156 | a policy is evaluated as stored exactly when its condition is none of `false`, `0`, the empty text and the empty list; so every object is |
| DocumentAccess.EvaluateDocumentPermissions | nexusrag/services/authz/abac.py:280-328 | permitted exactly when bypassed or when some unexpired grant to the user, role, api key or group satisfies the action |
| DocumentAccess.LoadDocumentPermissions | nexusrag/services/authz/abac.py:331-376 | the map holds exactly the permissions granted on the listed documents |
| DocumentAccess.LoadDocumentLabels | nexusrag/services/authz/abac.py:646-664 | each listed document gets the labels it would get alone |
| DocumentAccess.LabelIsLastOfKey | nexusrag/services/authz/abac.py:646-664 | a label is the value of the last row of its tenant, document and key |
| DocumentAccess.BatchAclAgrees | nexusrag/services/authz/abac.py:379-384 | the batch check of a document agrees with the single check |
| DocumentAccess.AuthorizeDocumentAction | nexusrag/services/authz/abac.py:444-517 | tenant, grants, role and policies are consulted in order, and the first objection is the outcome |
| DocumentAccess.FilterDocuments | nexusrag/services/authz/abac.py:387-441 | the documents kept are exactly those that single authorization permits, as an in-order subsequence, and no other list is one; it fails exactly for an unsupported role, when none would be permitted |
| DocumentAccess.PermittedMeans | nexusrag/services/authz/abac.py:444-517 | whoever is permitted is of the document's tenant, holds a satisfying unexpired grant or bypasses, and no policy in reach denies |
| DocumentAccess.RefusedExactlyWithoutGrant | nexusrag/services/authz/abac.py:280-328 | which tenants, grants, permissions, expiries and roles are refused, and with which denial |
| DocumentAccess.SoleGrantAllowsExactly | nexusrag/services/authz/abac.py:35-41 | which actions a single grant of each permission allows |
| DocumentAccess.TenantDenyRefuses | nexusrag/services/authz/abac.py:485-517 | a deny policy of the tenant or of everyone, for documents and the action, keeps the document from everybody |
| DocumentAccess.PoliciesForOthersAreInert | nexusrag/services/authz/abac.py:485-517 | policies of other tenants, disabled ones, or for other things change no answer |
| DocumentAccess.PoliciesDecideLast | nexusrag/services/authz/abac.py:485-517 | with policies off grants alone decide; with none, the default |
| DocumentAccess.ForeignGrantsAreInert | nexusrag/services/authz/abac.py:317-322 | a grant of another tenant changes no decision |
| Scoring.NdcgAtK | nexusrag/benchmark/scoring.py:44-55 | the loop computes the discounted gain over the ideal, and zero where the source returns zero |
| Scoring.HitsEarnMostInFront | nexusrag/benchmark/scoring.py:49-54 | hits earn at most what they would in front, and that much exactly when they are in front |
| Scoring.NdcgBound | nexusrag/benchmark/scoring.py:44-55 | the score is within [0, 1] and is 1 exactly when the leading ranks are all relevant |
| Scoring.ZeroExactlyWithoutHits | nexusrag/benchmark/scoring.py:44-55 | the score is zero exactly when the cut-off or the relevant set is empty or nothing relevant is ranked before the cut-off |
| Scoring.NdcgOfDistinctIds | nexusrag/benchmark/scoring.py:44-55 | the bound holds for distinct retrieved ids and any positive decreasing discount |
| Scoring.BoundedExactlyWithoutExcessHits | nexusrag/benchmark/scoring.py:44-55 | the bound holds at every discount exactly when hits do not outnumber the relevant documents |
| Scoring.AboveOneAtEveryDiscountExactly | nexusrag/benchmark/scoring.py:44-55 | the score exceeds 1 at every discount exactly when the leading ranks are all relevant and more hits follow |

## Left out

- RateLimit: balances are exact reals, so neither floating-point rounding nor Redis's decimal storage of balances is modelled; rates are positive in the proofs; one clock times both calls and expiry. `_calculate_tokens`, a Python copy of the script's refill, has no member of its own.
- CircuitBreaker: the shared Redis mode, whose load and save are not synchronised, and the bulkhead, retries and metrics beside the breaker.
- Failover: expiry of the lock, its absence without Redis and the creation of the cluster row are not modelled; nor is a repeated promotion that looks up its request id before the first run ends and takes the lock after it (look-up, lock and token are one step here). What SQLAlchemy does is taken as given: a session keeps the attributes it loaded over its commits (`expire_on_commit` is off) and writes only columns it changed. Region rows, peer probes and lag are inputs; audit events, gauges, readiness scores and the change detection of mutated JSON columns are left out.
- Quota: instants are dates; database errors other than a duplicate marker, usage events and sampling, and plan lookup (the plan in force is an input) are left out.
- Cursor.CursorRoundTrip: JSON, UTF-8, HMAC and ISO dates are parameters. The round trips ask of the payload at hand that dumping it reads back (`Reads`) and that its signature is ASCII (`SignsAscii`), since numbers are all the reals here and no codec reads back every one of them; dates satisfy `IsoLawful`. Naive datetimes are not modelled.
- Base64: the decoder is the lenient one of CPython's `binascii`, stated over characters of text.
- Keyset: sort values are not null, and no cursor holds a null or missing sort value, which none minted does, so SQL's treatment of NULL is not modelled; each column has one strict order on its values.
- DocumentListing: one request sees one state of the table (already narrowed by its search filters) and one set of rights; comparing values of different kinds is the one database error modelled; sort columns are those of the route, without parser or serializer. Response rendering and facets are not part of it. The activity listing, which reads one batch without a rights filter, has no member of its own.
- Chunking: Python's `str` is a sequence of Unicode scalar values here, so lone surrogates are not modelled.
- Sse.StreamRun: reads arrive as decoded text, and a callback that throws is not modelled; the fields `id` and `retry` are ignored, as the reader does.
- Evaluator: comparators, operand paths and date parsing are one parameter from operator and payload to a truth value or a policy error; other exceptions they might raise are not modelled. The size limit on stored conditions is left out.
- DocumentAccess: the attribute cache written on each load, audit events, the tenant guard on empty tenant ids, and corpus and creation checks, which only build a smaller context for the same policies, are left out.
- Scoring: the discount is any positive decreasing function of the rank, which the logarithmic one is; recall, precision, percentile and token overlap are single expressions and are left out.
- Governance, entitlements, idempotency, SCIM, notifications, ingestion storage, retrieval, speech and model providers, backups, SDKs and the rest of the frontend.
