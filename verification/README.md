# Verified model of the internship tracker's core

The tracker scans company career pages on a schedule, groups the listings it finds into canonical
opportunities, and announces strong new ones by web push. This Dafny project models the parts of it
that carry state or arithmetic, and proves what they keep over every run. `dafny verify
dfyconfig.toml` checks everything.

| file | models |
|---|---|
| `EditDistance.dfy`, `Matcher.dfy` | title and location normalisation, the edit distance, and the merge decision |
| `Opportunities.dfy` | the store's transactions on listings, analyses, opportunities and notifications, with the invariant of every run |
| `OpportunityStore.dfy` | the same tables updated in place by the repository's methods, each proved to take one of those steps |
| `Journals.dfy` | the same tables read off the transactions alone: what each row says after any run |
| `Reconciliation.dfy`, `Batches.dfy` | when the start-up reconciliation is idempotent, and exactly when every batch of it is |
| `FixedPoints.dfy` | exactly when a pass changes nothing, and which listings a pass leaves at rest |
| `Histories.dfy` | two runs from the empty store: one after which a second pass still changes something, one that moves a listing to another company |
| `TimeText.dfy`, `Outbox.dfy`, `Dispatcher.dfy` | stored timestamps and their text order, the push outbox with leases and retries, and the dispatcher that drains it |
| `Deliveries.dfy` | the push outbox read off its transactions: who is claimed when, and what each row ends as |
| `Access.dfy`, `ScanRun.dfy`, `Robots.dfy` | the per-scope rate limit with exponential cooldown, the scan loop above it, and the robots.txt decision |
| `Calendar.dfy`, `Cron.dfy`, `CronText.dfy` | the Gregorian calendar, cron parsing, the bounded search for the next run, and what a schedule's text names |
| `Selector.dfy`, `Recipes.dfy` | descendant selectors, and learned extraction recipes that repair themselves |
| `Listings.dfy`, `BlockCache.dfy` | de-duplication by URL, and the block cache in front of the extraction model |
| `Text.dfy`, `Wrappers.dfy` | Go's string helpers, `Option` and `Result` |

## How it is modelled

SQLite runs on a single connection, so a transaction is one step. Where the source updates tables or
buffers in place the model is a class or a method with loops, proved equal to a function on values;
the laws are lemmas about those functions. What the main functions compute is stated a second time
without them, from the transactions, texts, pages or answers alone, and proved to agree. The learner,
the extraction model, the push service, the robots checker, the clocks and the pages are arbitrary
parameters: every theorem holds whatever they answer. A failed transaction changes nothing and is
reported as `Err` or `false`.

Tables are sequences or maps with the uniqueness that the schema declares: one opportunity per
listing, one row per notification deduplication key, one row per push endpoint, and a deleted
subscription leaves its deliveries in place without a subscription
(`migrations/005_web_push.sql`).

Some statements one might expect are false of the code. For each the model has an input that shows it,
and the exact condition under which it holds:

- Reconciliation is not idempotent in general, although the comment at
  `internal/store/sqlite.go:36-39` calls it safe to repeat. `Histories.SecondPassStillChanges` gives
  a run from the empty store after which a second pass still changes something, although every row
  stores its listings' identity and merges only equals.
  `Reconciliation.ReconcileIsIdempotent` proves idempotence for settled stores, those still waiting to
  be merged included (`FixedPoints.TwinsSettleByMerging`), and `Batches.EveryBatchIsIdempotentIff` shows
  which part of being settled decides: every batch is idempotent exactly when each untitled listing
  in company has a free opportunity to split into. In any store at all a second pass changes nothing
  exactly when the first left every listing at rest (`FixedPoints.IdempotentIff`, read off the store
  after the first pass).
- A program window registered again under another company takes merged listings of its first company
  with it. `Histories.WindowTakesListing` is a run from the empty store that does,
  `Opportunities.ProgramMovesListingsIff` the exact condition.
- The five-attempt limit is the dispatcher's, not the store's. `Dispatcher.SixthAttempt` is a run from
  the empty outbox with six attempts, `Dispatcher.ClaimKeepsLimitIff` says exactly which claims keep the
  limit, and `Dispatcher.AttemptsNeverExceedFive` proves it for runs that record every outcome before
  the next claim.
- A program window whose dates are in order can be refused, because the schema compares their texts:
  exactly when in `OpportunityStore.OrderedDatesAcceptedIff`, with the inputs of
  `TimeText.WholeSecondSortsLast`.
- A cron step just below 2^63 wraps around and marks values that its text does not name:
  `Cron.WideStepHitsMore`, and exactly when in `Cron.MeansProgressionIff`.
- A robots.txt rule that is not UTF-8 makes the program panic: `Robots.LatinLetterPanics`, and exactly
  when in `Robots.ParseGroups`.
- A block answer whose save failed is lost by a restart: `BlockCache.FailedSaveIsForgotten`, and exactly
  when nothing is lost in `BlockCache.RestartKeepsAnswersIff`.
- Stored timestamps do not always sort in time order: `TimeText.WholeSecondSortsLast`,
  `TimeText.FiveDigitYearsInvert`, and exactly when in `TimeText.TextOrderIff`.

## Model

| member | source | states |
|---|---|---|
| `EditDistance.DistanceIsLeastEditCount` | internal/opportunity/matcher.go:170-192 | some chain of single-character insertions, deletions and substitutions has the computed length, and no chain is shorter |
| `EditDistance.Levenshtein` | internal/opportunity/matcher.go:170-192 | the rolling-row loop computes that least cost |
| `EditDistance.NextRow` | internal/opportunity/matcher.go:175-190 | one pass of the inner loop turns the row of one prefix into the row of the next |
| `EditDistance.CheapestChain` | internal/opportunity/matcher.go:170-192 | builds an edit chain of exactly the computed cost for any two titles |
| `EditDistance.ChainsCostAtLeastDistance` | internal/opportunity/matcher.go:170-192 | every edit chain is at least as long as the computed cost |
| `EditDistance.Symmetric` | internal/opportunity/matcher.go:170-192 | the distance does not depend on the order of its arguments |
| `EditDistance.ZeroIffEqual` | internal/opportunity/matcher.go:170-192 | the distance is zero exactly on equal strings |
| `EditDistance.Triangle` | internal/opportunity/matcher.go:170-192 | the triangle inequality |
| `EditDistance.LengthBounds` | internal/opportunity/matcher.go:158-192 | the distance is at most the longer length, and at least the difference of the lengths, so a similarity lies between 0 and 1 |
| `Matcher.UnifyTokens` | internal/opportunity/matcher.go:113-128 | the in-place loop replaces exactly the internship words of a title |
| `Matcher.DropCountry` | internal/opportunity/matcher.go:94-107 | the in-place compaction leaves, at the front of the slice, exactly the words that are not country names, in order |
| `Matcher.SortIsCanonical` | internal/opportunity/matcher.go:94-107 | two arrangements of the same words sort to the same sequence |
| `Matcher.LocationIgnoresWordOrder` | internal/opportunity/matcher.go:94-111 | locations with the same words in any order have the same normal form |
| `Matcher.NormalFormsAreStable` | internal/opportunity/matcher.go:90-128 | normalising a normalised title or location changes nothing |
| `Matcher.TitleHasTokens` | internal/opportunity/matcher.go:148-156 | a non-empty normalised title has a token, so the token overlap never divides by zero |
| `Matcher.TokenDice` | internal/opportunity/matcher.go:194-204 | the token overlap lies between 0 and 1; which number it is, OverlapIsWhatIsShared says |
| `Matcher.OverlapIsWhatIsShared` | internal/opportunity/matcher.go:194-204 | the overlap times the sizes of both token sets, plus the tokens on one side only, is the sizes of both |
| `Matcher.OverlapExtremes` | internal/opportunity/matcher.go:194-204 | the overlap is 1 exactly for equal token sets and 0 exactly for disjoint ones |
| `Matcher.CharactersAndEdits` | internal/opportunity/matcher.go:158-168 | the similarity by characters times the longer length, plus the edit distance, is the longer length |
| `Matcher.CountShared` | internal/opportunity/matcher.go:194-204 | the counting loop returns the size of the intersection of the token sets |
| `Matcher.Evaluate` | internal/opportunity/matcher.go:46-57 | the score of every decision lies between 0 and 1; ScoreIsTheBetterMeasure, OutcomeIff and ReasonIff say what is decided |
| `Matcher.ScoreIsTheBetterMeasure` | internal/opportunity/matcher.go:148-156 | the score of two different titles with words is the larger of the two measures |
| `Matcher.ScoreExtremes` | internal/opportunity/matcher.go:46-57 | equal titles with words score 1, a title without words scores 0 |
| `Matcher.SameWordsMerge` | internal/opportunity/matcher.go:46-83 | two titles with the same set of words, in any order, at one known location merge automatically |
| `Matcher.NormalTitleHasWords` | internal/opportunity/matcher.go:113-128 | a normal title has the title's words, all internship words read as one, and is empty exactly when there are none |
| `Matcher.SameNormalTitleIff` | internal/opportunity/matcher.go:113-146 | titles have one normal form exactly when they agree word by word, all internship words being one |
| `Matcher.SameNormalLocationIff` | internal/opportunity/matcher.go:90-111 | locations have one normal form exactly when they have the same words equally often, country names aside |
| `Matcher.ReasonIff` | internal/opportunity/matcher.go:46-83 | which of the reasons is given, exactly, and that the decision carries the normal title and the known location |
| `Matcher.EvaluateIsSymmetric` | internal/opportunity/matcher.go:46-83 | swapping the two identities changes neither outcome nor score nor reason |
| `Matcher.SimilarityThroughCommonTitle` | internal/opportunity/matcher.go:158-192 | titles both at least 0.92 similar to a third are at least 19/23 similar to each other, which is more than 0.80 |
| `Matcher.CommonTitleNeverSeparates` | internal/opportunity/matcher.go:59-83 | two identities whose titles both fuzzily match a third by characters are told apart only by conflicting locations |
| `Matcher.EvaluateOnNormalForms` | internal/opportunity/matcher.go:46-57 | comparing with a stored normal form is comparing with the listing it came from |
| `Matcher.OutcomeIff` | internal/opportunity/matcher.go:59-83 | exactly when two identities merge automatically, and exactly when they are told apart |
| `Calendar.DateOfDay` | internal/scheduler/scheduler.go:170-187 | every day number reads as a valid Gregorian date and counts back to itself |
| `Calendar.LeapDayWithinEightYears` | internal/scheduler/scheduler.go:158-167 | 29 February recurs within 2921 days of any start, across common century years too |
| `Calendar.OrdinaryDayWithinTwoYears` | internal/scheduler/scheduler.go:158-167 | any other date of the year recurs within two years |
| `Calendar.WeekdayInMonth` | internal/scheduler/scheduler.go:158-167 | every month contains every weekday |
| `Cron.AddProgression` | internal/scheduler/scheduler.go:232-239 | the inner loop with its 64-bit counter ends and marks exactly the values it visits, with 7 read as 0 for weekdays |
| `Cron.MeansProgressionIff` | internal/scheduler/scheduler.go:232-239 | what an element marks is, within its field, the progression start, start+step, ... up to the end, exactly when two additions of the step do not wrap back into the field |
| `Cron.WideStepHitsMore` | internal/scheduler/scheduler.go:232-239 | the wrap is real: in the minute field 59/n with n just below 2^63 also marks minute 59+2n-2^64 |
| `Cron.ParseField` | internal/scheduler/scheduler.go:194-242 | a field is accepted exactly when each element is well formed, and holds the union of what its elements mark; only a bare star makes it unrestricted |
| `Cron.FieldMeansText` | internal/scheduler/scheduler.go:194-242 | unless a step wraps, a field matches exactly the values its elements name |
| `Cron.Parse` | internal/scheduler/scheduler.go:125-150 | a schedule is accepted exactly when it has five well-formed fields, each with its own meaning |
| `Cron.DayMatchRecurs` | internal/scheduler/scheduler.go:170-187 | if the day fields ever match, they match within 2921 days of every start |
| `Cron.MatchRecurs` | internal/scheduler/scheduler.go:158-187 | a schedule that matches any minute at all matches inside every window of 2921 days, a week less than the horizon |
| `Cron.MatchesAreSkipped` | internal/scheduler/scheduler.go:158-168 | if the search finds nothing, every match of the next 2921 days lies where the clocks were moved ahead |
| `Cron.Next` | internal/scheduler/scheduler.go:158-168 | in any zone, returns the least whole minute strictly after the argument at which the clocks show a match, within the horizon; if none is found although the schedule matches some minute of a Gregorian date, the clocks skipped a match; in a zone that skips nothing, none is found exactly when no Gregorian minute matches |
| `Cron.NextAtOffset` | internal/scheduler/scheduler.go:158-168 | in a zone at a fixed offset, the least matching whole minute strictly after the argument; none exactly when no minute of any Gregorian date matches; NextRun reads both off the text |
| `CronText.ElementReads` | internal/scheduler/scheduler.go:194-265 | writing an element, a star, a number or a range with or without a step, and parsing it gives the start, end and step it means |
| `CronText.ElementIff` | internal/scheduler/scheduler.go:194-265 | an element is accepted exactly when it is a star, a number or a range within the field, with or without a positive step, numbers being digits with an optional sign, and then names that start, end and step |
| `CronText.AtoiIff` | internal/scheduler/scheduler.go:258-265 | a number is read exactly when it is digits with an optional sign whose worth fits 64 bits, and as that worth |
| `CronText.ReadsOnce` | internal/scheduler/scheduler.go:158-187 | every minute of the wall clock reads as exactly one civil time; the weekday is counted from Monday, 8 January 2024 |
| `CronText.WeekdayCounts` | internal/scheduler/scheduler.go:170-187 | the weekday of the model is that counted from that Monday |
| `CronText.DayFires` | internal/scheduler/scheduler.go:170-187 | with a bare star in a day field the day must satisfy both, otherwise one of day of month and day of week is enough |
| `CronText.MatchesIffFires` | internal/scheduler/scheduler.go:170-187 | unless a step wraps, a parsed schedule matches a minute exactly when its text names the minute, hour, month and day of the civil time |
| `CronText.NextRun` | internal/scheduler/scheduler.go:125-168 | parsing a text and searching for the next run gives the first later minute whose civil time the text names, and nothing exactly when it names none |
| `TimeText.SecondTextOrder` | internal/store/sqlite.go:2208-2232 | instants of different seconds sort in time order, or in reverse exactly when the later year has more digits and the first of them make a smaller number |
| `TimeText.TrimmedOrder` | internal/store/sqlite.go:2208-2232 | dropping trailing zeros reverses the order of two fractions exactly when one becomes a prefix of the other |
| `TimeText.TextOrderIff` | internal/store/sqlite.go:2208-2232 | stored text order is time order, and exactly reversed for two instants of one second with one fraction a proper prefix of the other, and for such years of different width |
| `TimeText.OrderInRange` | internal/store/sqlite.go:2208-2232 | through year 9999 only fractions of one second reverse the order |
| `TimeText.WholeSecondSortsLast` | internal/store/sqlite.go:2208-2232 | a whole second sorts after every later instant of that second |
| `TimeText.FiveDigitYearsInvert` | internal/store/sqlite.go:2208-2232 | year 10000 sorts before every year from 1001 through 9999 |
| `Outbox.StepKeeps` | internal/store/sqlite.go:2126-2501 | every outbox transaction keeps: a lease exactly while sending, a subscription while active, and each notification the aggregate of its deliveries; a finished delivery changes at most by losing its deleted subscription |
| `Outbox.RunKeeps` | internal/store/sqlite.go:2126-2501 | the same over every sequence of transactions |
| `Outbox.EveryReachableStateIsConsistent` | internal/store/sqlite.go:2126-2501 | the same for every state reachable from empty tables |
| `Outbox.ReaggregateRestores` | internal/store/sqlite.go:2456-2501 | re-aggregating just the notifications of the rows that stopped being active restores every notification status |
| `Outbox.SecondClaimNeedsRetry` | internal/store/sqlite.go:2190-2288 | a delivery claimed again in a second before that of its first lease's end had a retry recorded in between, if the claims in between were made before that second too |
| `Deliveries.ClaimTakesIff` | internal/store/sqlite.go:2208-2261 | a claim takes a delivery exactly when it is pending or its lease has run out, its retry time has come, its subscription is live, and fewer such deliveries than the limit stand before it |
| `Deliveries.ClaimWaitsForRetry` | internal/store/sqlite.go:2215-2231 | no delivery is taken in a second before that of its recorded retry time |
| `Deliveries.LeftOutForAReason` | internal/store/sqlite.go:2208-2261 | a pending delivery left out has a later retry time, no live subscription, or a full batch before it |
| `Deliveries.RetryIsNotEarly` | internal/store/sqlite.go:2215-2354 | after an accepted retry no claim made in a second before that of the retry takes the delivery, whatever happens in between |
| `Deliveries.NextAttemptIsLastRetry` | internal/store/sqlite.go:2333-2354 | after any run the recorded next attempt is that of the last accepted retry |
| `Deliveries.AttemptsAreTakings` | internal/store/sqlite.go:2263-2282 | the attempt count is the number of claims that took the delivery |
| `Deliveries.StatusIsFirstEnd` | internal/store/sqlite.go:2290-2454 | an unfinished delivery ends sent, failed or cancelled as the first accepted success, accepted failure or deletion of its subscription says, and is unfinished while there was none |
| `Deliveries.StepTurns` | internal/store/sqlite.go:2126-2501 | what each transaction makes of each delivery row; it adds rows only when it enqueues and removes none |
| `Deliveries.StepSubscribes` | internal/store/sqlite.go:2126-2188 | which endpoints are subscribed after each transaction, and until when |
| `Deliveries.EndpointsAreUnique` | migrations/005_web_push.sql:6-16 | in every reachable outbox an endpoint has at most one subscription |
| `Deliveries.EnqueueAddresses` | internal/store/sqlite.go:1018-1065 | a new notification is delivered once to each subscriber that has not expired and to nobody else |
| `Deliveries.ClaimsTellRows` | internal/store/sqlite.go:2263-2286 | a claim hands out the new attempt count and the expiry of the subscription |
| `Outbox.PushRepository.constructor` | internal/store/sqlite.go:29-34 | starts with empty tables |
| `Outbox.PushRepository.UpsertPushSubscription` | internal/store/sqlite.go:2126-2159 | refuses a blank endpoint or key and one longer than the schema allows; otherwise inserts or refreshes the row of the endpoint and says whether it is new |
| `Outbox.PushRepository.EnqueueNotification` | internal/store/sqlite.go:1018-1065 | fans a notification out to the unexpired subscriptions, and cancels it when there are none |
| `Outbox.PushRepository.ClaimPushDeliveries` | internal/store/sqlite.go:2190-2288 | refuses bad limits and leases; otherwise releases expired leases, leases the first due rows, those of ClaimTakesIff, and returns them with their new attempt counts |
| `Outbox.PushRepository.ReleaseExpired` | internal/store/sqlite.go:2208-2214 | puts exactly the sending rows whose lease text is not after now back to pending |
| `Outbox.PushRepository.CollectDue` | internal/store/sqlite.go:2215-2261 | collects the first due rows in row order, up to the limit; which rows those are, ClaimTakesIff says |
| `Outbox.PushRepository.LeaseRows` | internal/store/sqlite.go:2263-2282 | leases every collected row once and spends one attempt |
| `Outbox.PushRepository.MarkPushDeliverySent` | internal/store/sqlite.go:2290-2331 | finishes a sending row as sent and settles its notification; fails on a row without subscription |
| `Outbox.PushRepository.RetryPushDelivery` | internal/store/sqlite.go:2333-2354 | puts a sending row back to pending with its next attempt time; fails on any other |
| `Outbox.PushRepository.FailPushDelivery` | internal/store/sqlite.go:2356-2383 | finishes a sending row as failed and settles its notification |
| `Outbox.PushRepository.DisablePushSubscription` | internal/store/sqlite.go:2385-2409 | drops the subscription behind a delivery |
| `Outbox.PushRepository.DeletePushSubscription` | internal/store/sqlite.go:2161-2188 | drops the subscription of an endpoint, if there is one |
| `Outbox.PushRepository.DropSubscription` | internal/store/sqlite.go:2411-2454 | cancels the unfinished deliveries of a subscription, unlinks the others, deletes it and settles every notification concerned |
| `Outbox.PushRepository.UpdateNotification` | internal/store/sqlite.go:2471-2501 | settles one notification: untouched while a delivery is active, else sent if any was sent, else failed |
| `Dispatcher.RetryDelay` | internal/push/dispatcher.go:142-151 | the delay lies between a minute and an hour |
| `Dispatcher.RetryDelayDoubles` | internal/push/dispatcher.go:142-151 | it is one minute doubled per attempt, limited to an hour: the cap on the shift never shows |
| `Dispatcher.NextAttempt` | internal/push/dispatcher.go:112-124 | the next attempt is at least a minute and at most a day away, and not before a Retry-After within the day |
| `Dispatcher.Deliver` | internal/push/dispatcher.go:92-135 | succeeds exactly as RefusedIff says; for a delivery being sent it always does, and the row is as AnswerIsHonoured says |
| `Dispatcher.AnswerIsHonoured` | internal/push/dispatcher.go:92-135 | an expired subscription, 404 or 410 ends with the subscription deleted and the delivery cancelled; a clean 200 to 299 with the delivery sent, the subscription live and the notification delivered once nothing of it is active; a failed send, 408, 425, 429 or 500 and above before the fifth attempt with the delivery pending at the retry time; anything else with it failed |
| `Dispatcher.RetryTimeIs` | internal/push/dispatcher.go:112-124 | the retry time is Retry-After when it is between the backoff and a day away, otherwise the backoff or a day |
| `Dispatcher.RefusedIff` | internal/push/dispatcher.go:92-135 | an outcome is refused exactly when it needs a subscription that is gone or, for a retry, when the delivery is not being sent any more |
| `Dispatcher.DispatchPending` | internal/push/dispatcher.go:78-90 | a round claims a batch, records the outcome of every claimed delivery as Deliver does, whatever fails, and counts the failures |
| `Dispatcher.ClaimFromRest` | internal/store/sqlite.go:2190-2288 | with nothing in flight, a claim spends one attempt of the budget for every delivery it takes |
| `Dispatcher.RecordSettles` | internal/push/dispatcher.go:92-135 | recording an outcome ends the sending state and raises no remaining budget |
| `Dispatcher.AdvancePays` | internal/push/dispatcher.go:63-126 | each single transaction keeps the attempt counts in bounds and pays for what it claims |
| `Dispatcher.AnswersDispatch` | internal/push/dispatcher.go:78-90 | recording the outcomes of a batch one by one is what a round does after its claim |
| `Dispatcher.RoundPays` | internal/push/dispatcher.go:78-135 | a round pays at least one unit of the budget for every claimed delivery and leaves nothing in flight |
| `Dispatcher.AttemptsNeverExceedFive` | internal/push/dispatcher.go:63-126 | one transaction at a time, with subscribing, unsubscribing and enqueueing anywhere, in the middle of a batch too: no attempt count ever exceeds five, and all claims are paid out of the attempts left and five for each new delivery |
| `Dispatcher.FiveAttemptsFromEmpty` | internal/push/dispatcher.go:63-126 | the same for every run from an empty outbox |
| `Dispatcher.RoundsDrain` | internal/push/dispatcher.go:63-90 | with idle ticks and other transactions anywhere, the ticks that claim something are never more than the attempts left at the start, and once they are as many nothing is pending or being sent |
| `Dispatcher.LateTickWorksIff` | internal/push/dispatcher.go:63-126 | after any run, new notifications included, a tick that comes, by the second, after every recorded retry time claims something exactly when something is pending |
| `Dispatcher.LateTicksDrain` | internal/push/dispatcher.go:63-126 | as many such late ticks as there were attempts left, with any other ticks in between, leave nothing pending or being sent |
| `Dispatcher.EachDayClaimsOrIsFinished` | internal/push/dispatcher.go:63-126 | in every run from an empty outbox, if the dispatcher claims nothing from the recording of its last outcome until a tick more than a day after the last answer, nothing is pending or being sent then |
| `Dispatcher.DueIsClaimed` | internal/store/sqlite.go:2215-2231 | a claim is not empty while some delivery is due |
| `Dispatcher.ClaimKeepsLimitIff` | internal/store/sqlite.go:2208-2282 | a claim keeps every attempt count at most five exactly when it takes no delivery that has used five |
| `Dispatcher.LostOutcomesAreReclaimed` | internal/store/sqlite.go:2208-2282 | from an empty outbox: a delivery whose outcomes are never recorded is claimed again after every lease, its count growing without bound |
| `Dispatcher.SixthAttempt` | internal/store/sqlite.go:2208-2282 | such a run with six claims 46 seconds apart ends with six attempts |
| `Access.ExponentialCooldown` | internal/store/sqlite.go:1442-1454 | the doubling loop returns min(maximum, base*2^(n-1)) and never passes maximum on the way |
| `Access.CooldownSaturates` | internal/store/sqlite.go:1442-1454 | a cooldown that has reached its maximum stays there |
| `Access.CooldownDoubles` | internal/store/sqlite.go:1442-1454 | the first cooldown is the base and every further failure doubles it up to the maximum |
| `Access.ConsecutiveGrantsAreSpaced` | internal/store/sqlite.go:1275-1341 | two consecutive grants of a scope are at least the earlier one's minimum interval apart, whatever is recorded between them |
| `Access.FailuresAreCounted` | internal/store/sqlite.go:1343-1440 | the stored count is the number of failures since the last success |
| `Access.NothingGrantedDuringCooldown` | internal/store/sqlite.go:1275-1408 | after the n-th consecutive failure nothing is granted before Retry-After or the n-th cooldown has passed, until a success or later failure is recorded |
| `Access.GrantedIff` | internal/store/sqlite.go:1275-1440 | after any calls a reservation is granted exactly when the interval of the latest grant is over and the latest failure, unless a success came after it, has cooled down |
| `Access.AccessRepository.constructor` | internal/store/sqlite.go:29-34 | starts with no scope |
| `Access.AccessRepository.ReserveSourceAccess` | internal/store/sqlite.go:1275-1341 | refuses empty scopes and intervals; otherwise grants and moves the next allowed time, or changes nothing and names the first time at which a reservation would be granted |
| `Access.AccessRepository.RecordSourceAccessFailure` | internal/store/sqlite.go:1343-1408 | counts the failure, blocks the scope and names the first time at which a reservation would be granted; fails for a scope never reserved |
| `Access.AccessRepository.RecordSourceAccessSuccess` | internal/store/sqlite.go:1410-1440 | clears failures and block of a reserved scope |
| `ScanRun.Run` | internal/orchestrator/service.go:71-229 | each scope is reserved once; a protected source is fetched only after a grant, an allowing robots decision in robots mode, and no protective failure of its scope; successes are recorded exactly for healthy scopes; results match sources in order with the numbers of their visits; every skip is justified |
| `ScanRun.PassGate` | internal/orchestrator/service.go:73-127 | reserves a scope on its first use, consults robots, and either lets the source through or has a reason not to |
| `ScanRun.FetchSource` | internal/orchestrator/service.go:129-210 | fetches once, records a protective failure at once, and reports what was found, added and failed |
| `ScanRun.ProcessListings` | internal/orchestrator/service.go:166-199 | counts the listings stored for the first time, and those that did not end analysed and saved or in no need of it |
| `ScanRun.ResetHealthyScopes` | internal/orchestrator/service.go:213-220 | records a success exactly for the scopes with a grant, a successful fetch and no protective failure |
| `ScanRun.Summarize` | internal/orchestrator/service.go:320-353 | succeeded plus failed equals the number of sources; completed exactly when all succeeded, failed exactly when there are some and none did |
| `ScanRun.RunAndSummarize` | internal/orchestrator/service.go:71-353 | a run is completed exactly when every source was fetched, each of its listings ended as it should, and that was recorded; it failed exactly when there are sources and none went so well |
| `Selector.ScanComponent` | internal/scraper/learnedselector.go:251-299 | the scanner with its mode and token buffer computes the component grammar |
| `Selector.ParseSelector` | internal/scraper/learnedselector.go:251-299 | splits at white space, accepts one to six components, fails on the first bad one |
| `Selector.ComponentIff` | internal/scraper/learnedselector.go:251-299 | a text is parsed as a component exactly when it is an optional name followed by ids and classes, at most one of them an id, and the component is the lower-cased name, the id and the classes in order |
| `Selector.SelectorIff` | internal/scraper/learnedselector.go:251-299 | words joined by white space are a selector exactly when there are one to six and each is a component |
| `Selector.ComponentRoundTrip` | internal/scraper/learnedselector.go:251-299 | writing a tag, id and classes and parsing them gives them back |
| `Selector.SelectorRoundTrip` | internal/scraper/learnedselector.go:251-299 | writing one to six components and parsing them gives them back |
| `Selector.ComponentSelects` | internal/scraper/learnedselector.go:335-356 | a tag, #id or .class selects the elements with that tag, id or class, and a component of several parts what every part selects |
| `Selector.MatchesAncestors` | internal/scraper/learnedselector.go:322-333 | the greedy nearest-ancestor walk accepts exactly when some strictly ascending chain of ancestors matches the selector list |
| `Selector.CollectExact` | internal/scraper/learnedselector.go:301-320 | the preorder walk collects exactly the matching nodes, in document order |
| `Selector.SelectNodes` | internal/scraper/learnedselector.go:301-320 | returns exactly the matching elements strictly below the root, once each, in document order; an invalid selector selects nothing |
| `Listings.KeptAreFirst` | internal/scraper/learnedselector.go:213-223 | the kept listings are exactly the first occurrences of each URL |
| `Listings.KeptInOrder` | internal/scraper/learnedselector.go:213-223 | in the order of those first occurrences |
| `Listings.KeptUrls` | internal/scraper/llmgeneric.go:321-333 | a URL is kept exactly when it occurs |
| `Listings.KeptUrlsDiffer` | internal/scraper/llmgeneric.go:321-333 | no URL is kept twice |
| `Recipes.RunRecipe` | internal/scraper/learnedselector.go:182-225 | computes the run of a recipe, whose listings RunFindsListings reads off the page, with distinct URLs |
| `Recipes.RunFindsListings` | internal/scraper/learnedselector.go:182-225 | a recipe succeeds exactly when it has an identity text and four selectors, some node shows that text, and every listing node has exactly one title and one link below it, a title that is not blank and a link that resolves; it returns those listings, of each URL the first in the document |
| `Recipes.IdentifiesIff` | internal/scraper/learnedselector.go:186-196 | a node shows the identity exactly when, apart from case, some stretch of its text is the identity text without white space around it |
| `Recipes.ScanOutcome` | internal/scraper/learnedselector.go:80-168 | a scan returns what the current recipe lists or, when that is nothing, what the learned recipe lists, which becomes the next version; it fails exactly when neither lists anything or the source is not registered; older versions are untouched |
| `Recipes.FetchKeepsRecipes` | internal/scraper/learnedselector.go:80-168 | whatever page and learner do: versions count up, exactly the newest is active, golden counts stay at least one, a failed scan changes nothing, a success is never empty |
| `Recipes.ScansKeepRecipes` | internal/scraper/learnedselector.go:80-168 | the same over every sequence of scans |
| `Recipes.EveryHistoryIsConsistent` | internal/store/sqlite.go:307-395 | the same from an empty store |
| `Recipes.TrimmedRunsTheSame` | internal/store/sqlite.go:307-357 | the trimmed recipe that is stored runs like the one that was learned |
| `Recipes.SuccessIsRepeatable` | internal/scraper/learnedselector.go:80-168 | scanning the same page again succeeds with the same listings and recipe, without the learner |
| `Recipes.LearnedSource.constructor` | internal/scraper/learnedselector.go:55-72 | starts without recipes |
| `Recipes.LearnedSource.FetchListings` | internal/scraper/learnedselector.go:80-109 | one scan: the active recipe first, the learner exactly when there is none, it fails, or a page that used to list something lists nothing |
| `Recipes.LearnedSource.LearnThenRun` | internal/scraper/learnedselector.go:143-168 | stores a learned recipe only after it found at least one listing |
| `Recipes.LearnedSource.SaveSourceRecipe` | internal/store/sqlite.go:307-357 | retires the active recipe and inserts the next version |
| `Recipes.LearnedSource.UpdateSnapshot` | internal/store/sqlite.go:359-395 | updates the golden count of the active version only |
| `BlockCache.ScanKeepsAnswers` | internal/scraper/llmgeneric.go:259-335 | a scan forgets and changes no answer, sends exactly the blocks without one, and returns the answers of its blocks in block order without repeating a URL |
| `BlockCache.FreshIsAttributed` | internal/scraper/llmgeneric.go:292-305 | a block is given exactly the valid listings the answer attributes to it |
| `BlockCache.FreshInOrder` | internal/scraper/llmgeneric.go:292-305 | in the order of the answer |
| `BlockCache.NormalizedReads` | internal/scraper/llmgeneric.go:337-361 | a claimed opening is valid exactly when its title is not blank and its link resolves, white space around its texts does not count, and a missing summary is the title |
| `BlockCache.ScanSucceedsIff` | internal/scraper/llmgeneric.go:259-335 | exactly when a scan succeeds, and which of the three failures it reports otherwise |
| `BlockCache.RememberedFresh` | internal/scraper/llmgeneric.go:308-313 | a sent block is remembered with those listings, also when there are none |
| `BlockCache.AnswersArePermanent` | internal/scraper/llmgeneric.go:259-335 | as long as restarts lose nothing, no scan or restart changes an answer |
| `BlockCache.RescanIsFree` | internal/scraper/llmgeneric.go:259-335 | a page scanned successfully once is served again without asking the model and with the same listings, after any scans and any restarts that lost nothing |
| `BlockCache.RescanIsFreeUntilRestart` | internal/scraper/llmgeneric.go:101-128 | until a restart that needs no persistent cache and no successful save |
| `BlockCache.RescanIsFreeAcrossRestarts` | internal/scraper/llmgeneric.go:259-335 | with a persistent cache whose writes succeed it holds across all restarts |
| `BlockCache.FirstAnswerIsKept` | internal/scraper/llmgeneric.go:287-318 | after any run a text is known exactly when it was known before or some scan answered it, and its answer is the first one |
| `BlockCache.ScansServeFirstAnswers` | internal/scraper/llmgeneric.go:259-335 | from a start with nothing known, every successful scan returns the first answers of its blocks in block order without repeating a URL |
| `BlockCache.RestartKeepsAnswersIff` | internal/scraper/llmgeneric.go:308-318 | a restart keeps all answers exactly when none was remembered without being stored |
| `BlockCache.FailedSaveIsForgotten` | internal/scraper/llmgeneric.go:308-318 | an answer whose save failed is served until the next restart and then forgotten, whatever is scanned and saved in between, because its block is never sent again |
| `BlockCache.GenericSource.constructor` | internal/scraper/llmgeneric.go:101-128 | starts with the stored answers it is given and an empty memory |
| `BlockCache.GenericSource.Extract` | internal/scraper/llmgeneric.go:259-335 | the loops over changed blocks, fresh and persisted entries and seen URLs compute one such scan |
| `BlockCache.GenericSource.LoadBlocks` | internal/store/sqlite.go:468-490 | loads exactly the stored answers of the requested blocks into memory |
| `BlockCache.GenericSource.RememberAnswers` | internal/scraper/llmgeneric.go:308-313 | stores an entry for every sent block |
| `BlockCache.GenericSource.Collect` | internal/scraper/llmgeneric.go:321-333 | joins the blocks' answers in order, first URL wins |
| `Robots.SplitGeneratesWild` | internal/scraper/robots.go:198-217 | splitting a pattern at its stars and generating from the parts is the wildcard language |
| `Robots.OctetsMatchLikeCharacters` | internal/scraper/robots.go:198-217 | on UTF-8 texts matching octet by octet is matching character by character |
| `Robots.CompiledMatchesWildcard` | internal/scraper/robots.go:198-217 | for a UTF-8 value and path, a compiled rule matches exactly the paths that begin with the wildcard pattern, or are it when the value ends in a dollar sign, a star standing for any characters |
| `Robots.SpecificityCountsLiterals` | internal/scraper/robots.go:198-217 | specificity is the number of octets of the value other than stars and the final dollar sign |
| `Robots.EncodedHasWidth` | internal/scraper/robots.go:198-217 | the octets of a scalar value are one character, whatever follows |
| `Robots.WidthIsEncoded` | internal/scraper/robots.go:198-217 | and every character is the octets of a scalar value |
| `Robots.PlainLine` | internal/scraper/robots.go:163-195 | a line of a name, a colon and a value is an agent line with the lower-cased value, an allow or disallow rule with the value as it is, or nothing, by its name in any case |
| `Robots.CommentsAreSkipped` | internal/scraper/robots.go:165-167 | a comment is as if it were not there |
| `Robots.LinesAreRead` | internal/scraper/robots.go:156-165 | a file is read line by line, whichever way its lines end and with or without a byte order mark |
| `Robots.ParseGroups` | internal/scraper/robots.go:156-196 | fails exactly when a rule below an agent line is not UTF-8, on which the program panics; otherwise a rule belongs to an agent exactly when it follows an agent line for it that no later group has closed |
| `Robots.LatinLetterPanics` | internal/scraper/robots.go:156-216 | a file of two lines with one Latin-1 letter in the path of a rule is such a panic |
| `Robots.MatchingGroups` | internal/scraper/robots.go:237-254 | the groups naming the token, or the star groups when none does |
| `Robots.Allowed` | internal/scraper/robots.go:219-235 | the scan allows exactly when no rule matches or an allow rule is among the most specific matches, and refuses exactly when some matching disallow rule is more specific than every matching allow rule |
| `Robots.Decide` | internal/scraper/robots.go:156-254 | the same, read off the octets of the file, with its byte order mark and carriage returns removed; no decision exactly on such a panic |
| `Robots.NamedGroupReplacesStar` | internal/scraper/robots.go:219-254 | in a file of a star group and a named group of one rule each, the named agent is bound by its own rule only and everybody else by the star's only |
| `Robots.OrderDoesNotMatter` | internal/scraper/robots.go:219-254 | reordering groups, agents or rules changes no decision |
| `Opportunities.ResolveKeeps` | internal/store/sqlite.go:794-918 | resolving a listing keeps: one active home of its own company per listing, merged opportunities empty, notifications unique and with their listing |
| `Opportunities.SplittingKeeps` | internal/store/sqlite.go:920-956 | a split keeps the same, and withdraws or re-keys no notification |
| `Opportunities.MergingKeeps` | internal/store/sqlite.go:887-906 | a merge keeps the same |
| `Opportunities.SplitLeavesCompanions` | internal/store/sqlite.go:920-956 | a split listing shares with none of its former companions, and is alone exactly when nobody lives in the opportunity it returns to |
| `Opportunities.MergedIsEmpty` | internal/store/sqlite.go:887-906 | in every reachable store no listing sits in a merged opportunity |
| `Opportunities.AnnouncedOnce` | internal/store/sqlite.go:977-1032 | a notification is added exactly for a strong first success of a trusted source and a primary or secondary company, when none points at the opportunity and its key is unused |
| `Opportunities.NotificationsAreFirst` | internal/store/sqlite.go:617-1032 | over every run, a step adds at most one notification, and only a strong first success of a trusted source and a primary or secondary company, when no earlier notification shares its listing, opportunity or key |
| `Opportunities.SaveKeeps` | internal/store/sqlite.go:617-707 | saving an analysis keeps the invariant, so each listing inserts at most one notification |
| `Opportunities.UpsertKeeps` | internal/store/sqlite.go:528-615 | inserting or updating a listing keeps it |
| `Opportunities.FailingKeeps` | internal/store/sqlite.go:1085-1120 | recording a failed analysis keeps it |
| `Opportunities.InvalidatedKeeps` | internal/store/reassess.go:173-194 | invalidating analyses keeps it: a later success is not a first one |
| `Opportunities.ProgramMovesListingsIff` | internal/store/sqlite.go:210-258 | projecting a program window leaves every listing with its own company exactly when no listing of another company sits in the window's opportunity |
| `Histories.WindowTakesListing` | internal/store/sqlite.go:166-258 | a run from the empty store after which a listing sits with another company: it joined a program window that was then registered for that company |
| `Opportunities.ReconcileKeeps` | internal/store/sqlite.go:40-86 | a reconciliation pass keeps the invariant |
| `Opportunities.StepKeeps` | internal/store/sqlite.go:528-1066 | every transaction keeps the invariant |
| `Opportunities.RunKeeps` | internal/store/sqlite.go:528-1066 | the same over every run; no notification is ever withdrawn or given another listing or key |
| `Opportunities.EveryReachableStateIsConsistent` | internal/store/sqlite.go:528-1066 | the invariant holds in every state reachable from an empty store |
| `Journals.StoreAgreesWithJournal` | internal/store/sqlite.go:528-1120 | in every reachable store each registered source is as last registered, each listing as last accepted, and each analysis as its own last transactions left it: location and provider of the last valid save, whether that still stands, and the failures since |
| `Journals.PlacedWhereLastSaved` | internal/store/sqlite.go:644-680 | a listing is placed at the location of its last valid save, or nowhere |
| `Journals.ResolvedAsSaved` | internal/store/sqlite.go:40-86 | a start-up resolves every accepted listing with the title last accepted and the location last saved |
| `Journals.ResolvedAsJustSaved` | internal/store/sqlite.go:617-707 | right after a valid save that is the identity just saved |
| `Journals.JoinsItsPlace` | internal/store/sqlite.go:794-918 | a listing that joins another opportunity joins an active one of its company at the place it was last analysed to be in |
| `Journals.WindowsAgreeWithJournal` | internal/store/sqlite.go:166-258 | in every reachable store there is a program window exactly for each key registered, of the company it was last registered for |
| `Journals.WindowIsNamed` | internal/store/sqlite.go:210-258 | a registered window is active under the normal form of its name, keeps its place and touches no other row |
| `Journals.NewListingOpens` | internal/store/sqlite.go:528-615 | a new listing opens an active opportunity of its own under its normal title, without a place |
| `Opportunities.PassIsARun` | internal/store/sqlite.go:66-84 | a reconciliation pass is the run of its listings' transactions, so one that stops midway leaves a reachable store |
| `Reconciliation.CandidatesAreClass` | internal/store/sqlite.go:850-885 | in a settled store the automatic candidates of a listing are exactly the other active opportunities of its company with its identity |
| `Reconciliation.ResolveSettles` | internal/store/sqlite.go:794-918 | in a settled store resolving a listing keeps the store settled, leaves the listing at rest and wakes no other |
| `Reconciliation.PassSettles` | internal/store/sqlite.go:66-84 | after a pass every listing it visited is at rest |
| `Reconciliation.ReconcileIsIdempotent` | internal/store/sqlite.go:36-86 | in a settled store a second pass changes nothing |
| `Batches.EveryBatchIsIdempotentIff` | internal/store/sqlite.go:66-84 | in a consistent store whose rows store their listings' identities and merge only equals, reconciling any batch twice is reconciling it once, for all batches, exactly when every untitled listing in company has a free opportunity to split into |
| `Batches.RunKeepsVacant` | internal/store/sqlite.go:528-1066 | in every reachable store an active opportunity without listings is a program window |
| `Histories.HistoryReaches` | internal/store/sqlite.go:528-956 | fifteen transactions lead from the empty store to three untitled listings, one of them alone in the opportunity of another, which shares a renamed program window with the third |
| `Histories.PassReturns` | internal/store/sqlite.go:36-86 | the first pass over that store returns the second listing to its own opportunity, where the first one lives, and changes nothing else |
| `Histories.SecondPassStillChanges` | internal/store/sqlite.go:36-86 | a second pass over that reachable store, whose rows store their listings' identities and merge only equals, changes it again: a blocked listing breaks the start-up pass itself |
| `FixedPoints.ResolvesToItselfIff` | internal/store/sqlite.go:794-918 | resolving a listing changes nothing exactly when it fits its earliest companion, or is alone in an up-to-date opportunity without exactly one candidate |
| `FixedPoints.PassChangesNothingIff` | internal/store/sqlite.go:66-84 | in any store, a pass changes nothing exactly when each visited listing is at rest: no step is undone by a later one |
| `FixedPoints.IdempotentIff` | internal/store/sqlite.go:36-86 | a second pass changes nothing exactly when the first left every analysed listing at rest |
| `FixedPoints.TwinsSettleByMerging` | internal/store/sqlite.go:36-86 | settled stores need not be at rest: two listings of one title, each in its own opportunity, are settled and the first pass merges them |
| `OpportunityStore.Repository.constructor` | internal/store/sqlite.go:29-34 | starts with an empty, consistent store |
| `OpportunityStore.Repository.RegisterSource` | internal/store/sqlite.go:88-164 | refuses a registration with a blank field or an unknown access method, reason code, tracking status, coverage or trust, and an address that another source of the company has; otherwise upserts company and source, and keeps the addresses of each company distinct and the store consistent |
| `OpportunityStore.Repository.RegisterProgramWindow` | internal/store/sqlite.go:166-258 | refuses blank fields, bad addresses and statuses, dates out of order as instants or as stored texts, and an unknown company; otherwise upserts the window's opportunity |
| `OpportunityStore.OrderedDatesAcceptedIff` | migrations/012_program_windows.sql:14 | dates in order are accepted exactly when they are equal or their stored texts do not sort the wrong way round |
| `OpportunityStore.Repository.UpsertRawListing` | internal/store/sqlite.go:528-615 | accepts a titled listing with a canonical address of a source registered for its company; creates its opportunity and link exactly when it is new |
| `OpportunityStore.Repository.SaveAnalysis` | internal/store/sqlite.go:617-707 | stores the analysis, resolves the opportunity and enqueues, so that the store agrees with its journal (StoreAgreesWithJournal); refuses an unknown listing or invalid numbers and then changes nothing |
| `OpportunityStore.Repository.ResolveOpportunity` | internal/store/sqlite.go:794-918 | counting members and collecting candidates row by row computes the resolution |
| `OpportunityStore.Repository.CollectAutoCandidates` | internal/store/sqlite.go:850-885 | collects exactly the automatic candidates, whatever the row order |
| `OpportunityStore.Repository.CountMembers` | internal/store/sqlite.go:811-816 | counts the listings of an opportunity |
| `OpportunityStore.Repository.SplitOpportunity` | internal/store/sqlite.go:920-956 | creates or reactivates the target row and moves the listing with its notifications |
| `OpportunityStore.Repository.MoveNotifications` | internal/store/sqlite.go:899-901 | re-points exactly the listing's notifications |
| `OpportunityStore.Repository.EnqueueListingNotification` | internal/store/sqlite.go:977-1032 | inserts at most one notification, as stated by AnnouncedOnce |
| `OpportunityStore.Repository.SaveAnalysisFailure` | internal/store/sqlite.go:1085-1120 | refuses an unknown listing or a blank reason; otherwise marks the analysis pending and counts the retry, keeping the first-success mark |
| `OpportunityStore.Repository.InvalidateProcessedAnalyses` | internal/store/reassess.go:173-194 | marks exactly the processed analyses of the provider pending and returns their number |
| `OpportunityStore.Repository.ReconcileOpportunities` | internal/store/sqlite.go:40-86 | the loop over the analysed listings in first-seen order computes the pass and keeps the store consistent |

## Left out

- Matcher.Evaluate: scores are exact rationals, so rounding of float64 at the thresholds is not modelled.
- Cron.Next: a zone is any function from absolute to wall-clock minutes; the transitions that the time-zone database lists are not modelled.
- TimeText.TextOrderIff: instants before year 1 are not modelled; of all stored timestamps only a program window dated in year 0 could be one.
- Outbox.SecondClaimNeedsRetry: the lease ends by year 9999 and the claims in between come before its last second; there is no fencing token, so nothing is said about a sender that outlives its lease.
- Dispatcher.AttemptsNeverExceedFive: a crash that forgets a claimed batch is not an event of these runs, because it breaks the limit (SixthAttempt); neither is a failing database. The same holds for RoundsDrain, LateTicksDrain and EachDayClaimsOrIsFinished, whose late ticks also come by year 9999.
- CronText.MatchesIffFires: for texts without a step that wraps around 64 bits, as FieldMeansText; what such a step adds is in MeansProgressionIff.
- Deliveries.RetryIsNotEarly: retry times through year 9999, after which stored texts do not sort in time order (FiveDigitYearsInvert). The same holds for ClaimWaitsForRetry and LeftOutForAReason.
- Robots.ParseGroups: as in the code, a rule line with an empty value does not close the agent list, unlike RFC 9309; percent-encoding, the file size limit and the fetch status are not modelled.
- Robots.Decide: the path of a parsed URL is taken to be valid UTF-8 without line breaks.
- FixedPoints.IdempotentIff: its condition is read off the store after the first pass; before the pass, a sufficient one is in ReconcileIsIdempotent and the exact one, for all batches at once, in EveryBatchIsIdempotentIff.
- Opportunities.RunKeeps: for runs that register program windows, company agreement is stated only for opportunities that are not program windows; the exact condition is in ProgramMovesListingsIff.
- Recipes.SuccessIsRepeatable: the page is the same tree; the fetch time and the listing fingerprint are not part of a listing here.
- ScanRun.Run: scopes are compared as written, as in the run's own map; two spellings that the store folds into one row are separate here.
- Hashes (listing and opportunity ids, block hashes, deduplication keys) are taken as injective, and trimmed or case-folded spellings of ids, company names, endpoints and push keys as already folded.
- The match-event log, and with it the order of candidates and the best ambiguous one, which only choose what is logged.
- Assessment scores, evidence rows and the scorer and notification gate: an analysis brings one flag saying whether it asks for a push.
- Notification text, targets, subscription keys, failure counters, and the columns that only report (last error, sent at, health counts).
- Concurrent use of one in-memory cache or source object, and everything between two transactions that a crash would lose, except where a lemma says so.
- Canonical URLs (whether an address is one is a parameter), HTTP and HTML handling, JSON, model providers, push encryption, feeds, backups, commands and the web client.
- Reprocessing of pending analyses and the lifecycle, dashboard and coverage queries: short case splits over the same transactions.
- Unicode tables: lower-casing, letters and white space are parameters with the few laws stated in `Text.CharTable`.
