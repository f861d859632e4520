# A verified model of the gateway's limits, policies and evidence

This project models, in Dafny, the parts of the gateway that keep state or transform
something, and proves that each agrees with a simpler thing it stands for. `dafny verify
dfyconfig.toml` checks all of it.

| part | files |
|---|---|
| usage windows and the budget tracker | `Windows`, `RollingWindow`, `SlidingWindow`, `Tracker` |
| token buckets, the request and token limiter, concurrency | `TokenBucket`, `RequestLimiter`, `Limiter`, `ConcurrentLimiter` |
| conditions, rule evaluation, priorities | `Options`, `Policies`, `Conditions`, `ConditionBuilder`, `Evaluation`, `Engine`, `Priority` |
| name suggestions and graph checks | `EditDistance`, `Graphs`, `VariableCycles`, `Downgrades` |
| evidence | `Recorder`, `Retention` |
| routing and policy updates | `StickyCache`, `GitWatcher`, `GitReloads` |

Code that updates state in place is a class with methods, each proved against a function of
the old state; what the code is for is then proved about those functions. Protocols with
several goroutines are step machines, and their theorems are about every run.

## How the program is read

- Time is integer nanoseconds, and 0 is Go's zero time. Every `time.Now()` is a parameter;
  the clock never runs backwards and has passed the first bucket. `Tracker.Add` reads the
  clock once per window, so one amount may carry three times; each call on a tier's bucket
  reads it under that bucket's lock.
- Rates, money and percentages are exact reals; integers are unbounded. Rounding of
  `float64` and `int64` overflow are not modelled.
- `sort.Slice` is any correct sort, stable or not; ranging over a map is any order.
- Looking up a field and applying an operator is an arbitrary result per leaf condition,
  and the request context may be found cancelled at any look.
- The limiter's request tiers and token windows share no state and are two classes here.
  Requests are interleaved call by call. `CheckTokens` and `RecordTokens` are written out
  uninterrupted; what a window's answer means (`ExceedsMeaning`) holds whatever other calls
  come between its two windows.
- Git is a contract: a pull moves HEAD to the remote tip or fails, a checkout goes where it
  is told. An archive is the list of records written to it.
- The variable search is proved for any number of references per variable; the code
  extracts at most one from a value (`pkg/mpl/validator/semantic.go:89-101`).
- `MemoryStorage` counts, queries and deletes in separate critical sections, so the pruner
  takes the store as other writers left it before each of them.
- The watcher's poll loop, timer and reload callbacks run side by side, with no lock over a
  reload; reading the policy files and putting them to use are separate steps, the read
  itself is one.

## Where the code does not do what one would expect

Where a property fails, a lemma or method gives a concrete case and a theorem says when the
property does hold.

- An hourly request limit of 1 to 11 gives a bucket of capacity 0 and refuses every request
  for ever (`HourlyLimitWorksIff`).
- `Tracker.Check` returns at the first window in its alert band, so an alert of a shorter
  window hides an exceeded longer limit, although its comment
  (`pkg/limits/budget/tracker.go:93-99`) promises to report an exceeded limit
  (`AlertHidesDailyLimit`, `RefusesIff`).
- A refused request has spent tokens of the tiers asked before (`RefusalSpends`,
  `RefusalIsFreeIff`).
- `Acquire` can be refused while nobody holds a slot (`RefusedWithNoHolder`, `RefusedIff`).
- An undefined variable that is referred to twice is reported as circular (`FalseAlarm`,
  `ReportsExactlyCycles`).
- Count pruning deletes every record that shares the cutoff's timestamp, archived or not
  (`TieLosesRecords`, `TieDeletesMore`), and so do both pruners with old records written
  between query and delete (`LostByCount`, `LostByAge`).
- The empty key, when it is the strictly oldest entry, defeats the sticky cache's size bound
  or its choice of victim (`EmptyKeyEscapes`, `EvictLRU`, `SparedIff`).
- A query's offset is ignored when it has no limit (`OffsetNeedsLimit`).
- A record queued after `done` closes may be neither stored nor reported (`LeftBehind`,
  `StoredIff`).
- A pull without policy changes while a reload waits moves `lastCommitSHA` to policies
  nobody has loaded and can defeat the rollback (`RollbackDefeated`, `NotedWhileArmed`); a
  pull during a reload can leave `lastCommitSHA` at an invalid commit for good
  (`ReloadOvertaken`, `PollWhileArmed`, `PollDuringReload`).
- Two rules of one priority and name make the decision depend on the sort
  (`SameNameDiffers`, `LoadOrderIndependent`).
- The branch for a failed blocking action (`pkg/policy/engine/engine.go:348-357`) is dead
  (`BlockingActionsSucceed`).
- `pkg/mpl/ast/rule.go:12` says a lower priority goes first; the code sorts the higher
  priority first, and the model follows the code.

## Model

| member | source | states |
|---|---|---|
| `Windows.RunSandwich` | pkg/limits/budget/window.go:71-195 | over every run of Add and Sum with a clock that never runs backwards and non-negative amounts, Sum at `now` is at least the total of the events since now - window + bucket and at most the total since now - window |
| `Windows.Sandwich` | pkg/limits/ratelimit/sliding_window.go:91-132 | the same bounds from the state invariant alone, for any window length: the guaranteed part starts one bucket inside min(window, slots * bucket) |
| `Windows.GuaranteedPart` | pkg/limits/budget/window.go:88-106 | the lower half: pruned slots hold every event of the guaranteed part |
| `Windows.SumExact` | pkg/limits/ratelimit/sliding_window.go:91-109 | amounts of any sign: Sum is exactly the log's total over a set of buckets that has every bucket after now - window and none outside [now - window, now] |
| `Windows.SumIsBucketTotal` | pkg/limits/ratelimit/sliding_window.go:91-132 | amounts of any sign: unless something was added at this very aligned instant, Sum is exactly what the log holds in the buckets that start no earlier than now - window |
| `Windows.UsageIsBucketTotal` | pkg/limits/budget/window.go:88-106 | the same for a window with its history |
| `Windows.RunInv` | pkg/limits/ratelimit/sliding_window.go:75-187 | every reachable state keeps the invariant: distinct aligned stamps, exact slot amounts, no recent event lost |
| `Windows.NextInv` | pkg/limits/budget/window.go:71-106 | one Add or Sum keeps that invariant |
| `Windows.PruneInv` | pkg/limits/ratelimit/sliding_window.go:124-132 | pruning keeps the invariant, and afterwards every non-empty slot lies in [now - window, now] |
| `Windows.AddInv` | pkg/limits/budget/window.go:71-83 | crediting the slot that serves `now` keeps the invariant for the log with the new event appended |
| `Windows.EvictionByPigeonhole` | pkg/limits/ratelimit/sliding_window.go:136-187 | a live slot is overwritten only when `now` is exactly aligned, and the victim's stamp is exactly now - window |
| `Windows.VictimIsOld` | pkg/limits/budget/window.go:173-186 | with every slot taken, the oldest stamp lies at least slots * bucket before the new one |
| `Windows.ShortcutAgrees` | pkg/limits/ratelimit/sliding_window.go:140-150 | when the `head` slot carries the stamp, it is the one slot the full scan would find |
| `Windows.NothingLogged` | pkg/limits/ratelimit/sliding_window.go:136-187 | a bucket time no slot carries has no logged amount, so starting it at zero loses nothing |
| `Windows.SumIsCovered` | pkg/limits/ratelimit/sliding_window.go:91-109 | adding up the slots adds up the log over the buckets present |
| `Windows.TruncateIsRounding` | pkg/limits/ratelimit/sliding_window.go:137-138 | counting down bucket by bucket equals t - t mod bucket |
| `Windows.WholeBuckets` | pkg/limits/budget/tracker.go:54-64 | a window that is a multiple of its bucket gets enough slots to cover itself |
| `Windows.UsageInSandwich` | pkg/limits/budget/window.go:88-106 | the sandwich for a window with its history, at any later instant |
| `RollingWindows.RollingWindow.constructor` | pkg/limits/budget/window.go:54-65 | a new window is valid, empty and of the configured shape |
| `RollingWindows.RollingWindow.Prune` | pkg/limits/budget/window.go:138-146 | the array becomes the pruned array, slot by slot |
| `RollingWindows.RollingWindow.FindOrCreateBucket` | pkg/limits/budget/window.go:150-195 | returns the first slot with the bucket time, else the first empty one, else the first oldest one, re-stamped with amount zero; no other slot changes |
| `RollingWindows.RollingWindow.ChooseSlot` | pkg/limits/budget/window.go:163-186 | the first empty slot if there is one, else the first slot with the least stamp |
| `RollingWindows.RollingWindow.Add` | pkg/limits/budget/window.go:71-83 | the log gains exactly this event and the invariant survives |
| `RollingWindows.RollingWindow.Sum` | pkg/limits/budget/window.go:88-106 | the result is the usage of the history at `now` and lies in the sandwich; the log is unchanged |
| `RollingWindows.RollingWindow.OldestTimestamp` | pkg/limits/budget/window.go:120-134 | the least stamp of a non-empty slot, and 0 exactly when all are empty |
| `SlidingWindows.SlidingWindow.constructor` | pkg/limits/ratelimit/sliding_window.go:59-71 | a new window is valid, empty and of the configured shape |
| `SlidingWindows.SlidingWindow.Prune` | pkg/limits/ratelimit/sliding_window.go:124-132 | the array becomes the pruned array |
| `SlidingWindows.SlidingWindow.FindOrCreateBucket` | pkg/limits/ratelimit/sliding_window.go:136-187 | with the `head` shortcut, still serves the slot the full scan serves |
| `SlidingWindows.SlidingWindow.ScanFor` | pkg/limits/ratelimit/sliding_window.go:145-150 | the first slot with the stamp, or the length when there is none |
| `SlidingWindows.SlidingWindow.ChooseSlot` | pkg/limits/ratelimit/sliding_window.go:154-177 | the first empty slot, else the first oldest one |
| `SlidingWindows.SlidingWindow.Add` | pkg/limits/ratelimit/sliding_window.go:75-87 | the log gains exactly this event and the invariant survives |
| `SlidingWindows.SlidingWindow.Sum` | pkg/limits/ratelimit/sliding_window.go:91-109 | the usage of the history at `now`, inside the sandwich |
| `Trackers.WindowsAgree` | pkg/limits/budget/tracker.go:45-68 | hourly <= daily <= monthly <= everything spent, at every instant, although one amount may reach the three windows at three different times |
| `Trackers.ShorterReportsLess` | pkg/limits/budget/tracker.go:74-91 | for any two windows where the longer one's guaranteed part covers the shorter: the shorter never reports more |
| `Trackers.FollowsTotal` | pkg/limits/budget/tracker.go:74-91 | events that reach the second log no earlier total no less over a range that starts no later |
| `Trackers.Tracker.Agreement` | pkg/limits/budget/tracker.go:74-207 | in every valid tracker with all three limits, the three sums and totalSpent are ordered |
| `Trackers.Tracker.constructor` | pkg/limits/budget/tracker.go:45-68 | exactly the windows with a positive limit exist, of 60 minutes, 24 hours and 30 days, with empty books |
| `Trackers.Tracker.Configured` | pkg/limits/budget/tracker.go:51-65 | in every valid tracker exactly the windows with a positive limit exist, of 60 minutes, 24 hours and 30 days in buckets of a minute, an hour and a day |
| `Trackers.Tracker.Bounds` | pkg/limits/budget/tracker.go:74-207 | each window reports what was spent in its period, to within one bucket |
| `Trackers.Tracker.Add` | pkg/limits/budget/tracker.go:74-91 | posts the amount to every window's log and to the total |
| `Trackers.Tracker.Check` | pkg/limits/budget/tracker.go:100-207 | in amounts: all clear when every configured window is within its limit and below threshold times limit; otherwise the shortest that is not decides, refused iff its sum exceeds its limit and else an alert, with its reason, sum, remainder, share and reset time; spends nothing |
| `Trackers.Inspect` | pkg/limits/budget/tracker.go:105-135 | one window in amounts: calm, over its limit or in its alert band, with its figures and reset time |
| `Trackers.CalculateReset` | pkg/limits/budget/tracker.go:310-319 | the time at which the oldest bucket expires, `now` for an empty window |
| `Trackers.RefusesIff` | pkg/limits/budget/tracker.go:100-207 | Check refuses iff some configured window's sum exceeds its limit and every shorter one is within its limit and below the alert band; it alerts iff the shortest window that is not calm is within its limit |
| `Trackers.RefusesWithoutAlerts` | pkg/limits/budget/tracker.go:100-207 | with alerts off, Check refuses iff some configured window's sum exceeds its limit |
| `Trackers.AlertHidesDailyLimit` | pkg/limits/budget/tracker.go:100-207 | limits of 10 an hour and 20 a day, 19 spent and 6 two hours later: Check allows with an hourly alert of 6 while the daily window reports 25 |
| `TokenBuckets.IntervalBound` | pkg/limits/ratelimit/token_bucket.go:62-148 | over any sub-interval [s, t] of any run, tokens granted are fewer than capacity + rate * (t - s) + 1 |
| `TokenBuckets.LifetimeBound` | pkg/limits/ratelimit/token_bucket.go:49-148 | from creation, tokens granted are at most capacity + rate * elapsed |
| `TokenBuckets.GrantedByPotential` | pkg/limits/ratelimit/token_bucket.go:62-76 | from any sound state, grants never exceed stored tokens plus what accrues |
| `TokenBuckets.StepPotential` | pkg/limits/ratelimit/token_bucket.go:62-87 | no operation creates potential: what it grants leaves the bucket |
| `TokenBuckets.RefillPotential` | pkg/limits/ratelimit/token_bucket.go:131-148 | refilling never creates potential, although it rounds and advances lastRefill |
| `TokenBuckets.HintSuffices` | pkg/limits/ratelimit/token_bucket.go:108-127 | Take(n) succeeds one nanosecond after the hinted wait, for n <= capacity and no call in between |
| `TokenBuckets.HintIsNeeded` | pkg/limits/ratelimit/token_bucket.go:108-148 | Take(n) fails when tried more than one token period before the hint |
| `TokenBuckets.NoCapacityNoGrant` | pkg/limits/ratelimit/token_bucket.go:62-76 | a bucket of capacity 0 never grants |
| `TokenBuckets.RefillFloor` | pkg/limits/ratelimit/token_bucket.go:131-148 | a refill fills the bucket or adds more than the accrued tokens less one, and never takes any away |
| `TokenBuckets.TokensFloor` | pkg/limits/ratelimit/token_bucket.go:62-148 | over any run a bucket gives up tokens only by granting them |
| `TokenBuckets.AskingDoesNotStarve` | pkg/limits/ratelimit/token_bucket.go:131-148 | however often it is asked in vain, a bucket has a token one period after its last refill |
| `TokenBuckets.TokenBucket.Take` | pkg/limits/ratelimit/token_bucket.go:62-76 | state and answer are those of the bucket value the bounds are about |
| `TokenBuckets.TokenBucket.Refill` | pkg/limits/ratelimit/token_bucket.go:131-148 | state is the refilled bucket value |
| `TokenBuckets.TokenBucket.Remaining` | pkg/limits/ratelimit/token_bucket.go:80-87 | refills and returns the tokens |
| `TokenBuckets.TokenBucket.TimeUntilAvailable` | pkg/limits/ratelimit/token_bucket.go:108-127 | refills and returns the hint the two hint lemmas are about; without a rate, whatever Go converts infinity to |
| `RequestLimiters.RequestsBounded` | pkg/limits/ratelimit/limiter.go:47-144 | however requests overlap: those let through whose takes lie in [s, t] obey the bound of every configured tier at once: 2 * rps, rpm and rph / 12 plus the rate times the interval plus 1 |
| `RequestLimiters.SpacedRequestsPass` | pkg/limits/ratelimit/limiter.go:47-144 | at any point of any run, an uninterrupted request is let through if no configured tier has let anybody past for one period, 1/rps, 60/rpm or 3600/rph seconds, and the hourly limit is not below 12 |
| `RequestLimiters.RefusedOnlyWhenSpent` | pkg/limits/ratelimit/limiter.go:47-144 | in every interleaving a tier refuses only after letting 2 * rps, rpm or rph / 12 requests past, and the refusal carries that tier's reason and that number |
| `RequestLimiters.QuietTier` | pkg/limits/ratelimit/limiter.go:94-144 | a tier that has let nobody past for one period has a token, however often it was asked |
| `RequestLimiters.RetryAfterWorks` | pkg/limits/ratelimit/limiter.go:98-107 | a refusal reports the tokens the tier had when last asked and a wait after which, plus a nanosecond, the tier has one |
| `RequestLimiters.TierBound` | pkg/limits/ratelimit/limiter.go:94-144 | the interval bound for the requests that get past one tier in [s, t], in every interleaving |
| `RequestLimiters.TierRun` | pkg/limits/ratelimit/limiter.go:94-144 | in every interleaving a tier goes through a run of its bucket that grants exactly one token to each request that gets past it |
| `RequestLimiters.TierOrdered` | pkg/limits/ratelimit/limiter.go:94-144 | that run is ordered in time, because each call reads the clock under its bucket's lock |
| `RequestLimiters.RefusalSpends` | pkg/limits/ratelimit/limiter.go:96-126 | one request a second and one a minute: from a new limiter, a second request is refused by the minute tier and has emptied the second tier |
| `RequestLimiters.RefusalIsFreeIff` | pkg/limits/ratelimit/limiter.go:94-144 | in every interleaving, a refused request has spent no token of any tier iff no configured tier comes before the refusing one |
| `RequestLimiters.SpentIff` | pkg/limits/ratelimit/limiter.go:94-144 | a request spends one token of each configured tier it gets past and none of the others |
| `RequestLimiters.HourlyLimitWorksIff` | pkg/limits/ratelimit/limiter.go:65-69 | of any requests, however they overlap, once all are answered: one was let through iff the hourly limit is not between 1 and 11 (its capacity is then 0) |
| `RequestLimiters.RequestLimiter.constructor` | pkg/limits/ratelimit/limiter.go:52-69 | creates exactly the configured tiers, full, with their capacities and rates |
| `RequestLimiters.RequestLimiter.Step` | pkg/limits/ratelimit/limiter.go:94-144 | one Take, TimeUntilAvailable or Remaining of one request is the machine's step; other requests may act before the next |
| `RequestLimiters.RequestLimiter.CheckRequest` | pkg/limits/ratelimit/limiter.go:94-144 | a whole request that nothing interrupts is a run of the step machine, at most five steps, and returns its result |
| `Limiters.ExceedsMeaning` | pkg/limits/ratelimit/limiter.go:153-188 | an admitted estimate fits over the guaranteed part of the window; a refused one would not fit over the whole window |
| `Limiters.WindowsConfigured` | pkg/limits/ratelimit/limiter.go:71-80 | exactly the configured windows exist, a minute in seconds and an hour in minutes, holding what was recorded |
| `Limiters.AnswerMeans` | pkg/limits/ratelimit/limiter.go:153-188 | what a window lets pass fits the tokens recorded in the last window less a bucket; what it refuses does not fit the last window |
| `Limiters.TokenLimiter.CheckTokens` | pkg/limits/ratelimit/limiter.go:153-188 | refuses for the first configured window whose usage plus the estimate exceeds its limit, with that window's limit, remainder and wait; records nothing |
| `Limiters.TokenLimiter.RecordTokens` | pkg/limits/ratelimit/limiter.go:195-203 | adds the tokens to both logs |
| `ConcurrentLimiters.Safety` | pkg/limits/ratelimit/concurrent.go:60-82 | in every interleaving, holders never exceed the limit and the counter equals holders plus threads between increment and undo |
| `ConcurrentLimiters.RefusedIff` | pkg/limits/ratelimit/concurrent.go:60-73 | an Acquire is refused iff at least `limit` other threads were holding or mid-acquire at its increment |
| `ConcurrentLimiters.SeenCountsOthers` | pkg/limits/ratelimit/concurrent.go:61-62 | the value an Acquire saw is one more than the number of other active threads at its increment |
| `ConcurrentLimiters.UndoneWasRefused` | pkg/limits/ratelimit/concurrent.go:65-69 | an undo only ever follows such a refusal |
| `ConcurrentLimiters.StepInv` | pkg/limits/ratelimit/concurrent.go:60-82 | every atomic step keeps the protocol's invariant |
| `ConcurrentLimiters.RunInv` | pkg/limits/ratelimit/concurrent.go:60-82 | the invariant holds in every state of every run |
| `ConcurrentLimiters.QuietAcquire` | pkg/limits/ratelimit/concurrent.go:60-73 | with no other thread mid-acquire, Acquire succeeds iff there are fewer holders than the limit |
| `ConcurrentLimiters.RefusedWithNoHolder` | pkg/limits/ratelimit/concurrent.go:60-73 | a run in which an Acquire starts with no holder at all and is refused |
| `ConcurrentLimiters.ConcurrentLimiter.Add` | pkg/limits/ratelimit/concurrent.go:61-62 | the atomic increment is the protocol's increment step |
| `ConcurrentLimiters.ConcurrentLimiter.Compare` | pkg/limits/ratelimit/concurrent.go:64-72 | the comparison is the protocol's decision step |
| `ConcurrentLimiters.ConcurrentLimiter.Subtract` | pkg/limits/ratelimit/concurrent.go:66-82 | the atomic decrement is the undo or the release step |
| `EditDistance.LevenshteinDistance` | pkg/mpl/errors/suggestion.go:91-130 | the table's last cell is the distance of the two strings |
| `EditDistance.FillRow` | pkg/mpl/errors/suggestion.go:114-126 | filling row i makes every cell of rows 0..i the distance of its prefixes |
| `EditDistance.ShortestScript` | pkg/mpl/errors/suggestion.go:88-130 | some insert/delete/substitute script has the distance as its length |
| `EditDistance.ScriptsAreLong` | pkg/mpl/errors/suggestion.go:88-130 | no such script is shorter |
| `EditDistance.ZeroOnlyOnEqual` | pkg/mpl/errors/suggestion.go:91-94 | distance zero iff the strings are equal |
| `EditDistance.Symmetric` | pkg/mpl/errors/suggestion.go:91-130 | distance is symmetric |
| `EditDistance.Triangle` | pkg/mpl/errors/suggestion.go:91-130 | the triangle inequality |
| `EditDistance.LengthBounds` | pkg/mpl/errors/suggestion.go:91-130 | the distance is at least the difference of the lengths and at most their sum |
| `EditDistance.OneEditOneApart` | pkg/mpl/errors/suggestion.go:114-126 | one edit moves a string by at most one |
| `EditDistance.SuggestFieldName` | pkg/mpl/errors/suggestion.go:10-37 | suggests a name iff the closest is fewer than 5 edits away, and then the first closest; else lists all names, or the first five of more; nothing iff there are no names |
| `EditDistance.SomeFirstClosest` | pkg/mpl/errors/suggestion.go:16-25 | a first closest name exists whenever there is any name |
| `VariableCycles.Validator.ValidateVariableReferences` | pkg/mpl/validator/semantic.go:43-52 | for every iteration order: an error is reported iff the reference graph has a cycle or two references name the same undefined variable; with every reference defined, iff it has a cycle |
| `VariableCycles.Validator.CheckVariableCycle` | pkg/mpl/validator/semantic.go:55-86 | one search keeps the invariant that relates the two sets to the walk, the finished order and the verdict, and finishes its variable |
| `VariableCycles.Conclude` | pkg/mpl/validator/semantic.go:43-86 | from the invariant with everything visited, the verdict is exact in both directions |
| `VariableCycles.EnterUndefined` | pkg/mpl/validator/semantic.go:60-63 | the early return for an undefined variable leaves it in progress, and the invariant accounts for it |
| `VariableCycles.MeetInProgress` | pkg/mpl/validator/semantic.go:67-78 | meeting a variable in progress is a cycle or a second reference to an undefined one |
| `VariableCycles.Leave` | pkg/mpl/validator/semantic.go:65-86 | a finished variable extends the topological order |
| `VariableCycles.ReportsExactlyCycles` | pkg/mpl/validator/semantic.go:43-101 | the finished search reports exactly the cycles iff there is one or no undefined variable is referred to twice; so it does when every reference is defined |
| `VariableCycles.FalseAlarm` | pkg/mpl/validator/semantic.go:60-78 | two variables that refer to the same undefined one, without any cycle |
| `Graphs.SortedIsAcyclic` | pkg/mpl/validator/semantic.go:55-86 | a topological order of all variables excludes every cycle |
| `Downgrades.Checker.ValidateDowngrades` | pkg/config/validate.go:662-674 | for every iteration order: fails iff the downgrade map has a cycle; on success `visited` is restored |
| `Downgrades.Checker.CheckCircularDowngrade` | pkg/config/validate.go:680-694 | on success the chain ends and `visited` is as before; on failure there is a cycle; it terminates on every map |
| `Downgrades.CycleNeverEnds` | pkg/config/validate.go:680-694 | from a model on a cycle no number of downgrades reaches an end |
| `Downgrades.Closes` | pkg/config/validate.go:681-683 | coming back to a model on the walk closes a cycle |
| `Conditions.DeMorgan` | pkg/policy/engine/matcher.go:110-172 | not(all cs) and any(not c), and dually, give the same result or error and look at the context equally often |
| `Conditions.DoubleNegation` | pkg/policy/engine/matcher.go:160-172 | not(not c) evaluates like c, errors included |
| `Conditions.CancellationOnlyCancels` | pkg/policy/engine/matcher.go:35-172 | cancellation at any point changes the outcome of a tree only into the cancellation error |
| `Conditions.EvaluatesTruth` | pkg/policy/engine/matcher.go:35-172 | a tree in which nothing can fail evaluates to its boolean formula over the leaves, unless cancelled |
| `Conditions.MeaningIsTruth` | pkg/policy/engine/matcher.go:62-172 | all is conjunction, any is disjunction, not is negation over the leaves' own values |
| `Conditions.MissingField` | pkg/policy/engine/matcher.go:66-86 | a missing field matches under fail-open, fails under fail-closed, does not match under the default mode |
| `Conditions.LeafVerdict` | pkg/policy/engine/matcher.go:62-107 | a leaf is its comparison, or the error of its operator or its missing field |
| `Conditions.AllMeansConj` | pkg/policy/engine/matcher.go:110-132 | of all, the first child that is not true decides, errors included |
| `Conditions.AnyMeansDisj` | pkg/policy/engine/matcher.go:135-157 | of any, the first child that is not false decides, errors included |
| `Conditions.CancellationIsNoticed` | pkg/policy/engine/matcher.go:111-117 | a cancelled context is noticed before a child is looked at, and an error of the first child is the result |
| `Conditions.MeaningAllConcat` | pkg/policy/engine/matcher.go:110-132 | a conjunction of a concatenation short-circuits between its halves |
| `ConditionBuilder.BuildsFlat` | pkg/mpl/parser/builder.go:167-198 | a nested list builds iff it has no empty list and its flattened items build, and the tree, with singletons unwrapped, evaluates like the left-to-right conjunction of the flattened list |
| `ConditionBuilder.BuildTree` | pkg/mpl/parser/builder.go:167-198 | in every environment the tree means what the decoded value says: all over a list is the conjunction, any the disjunction, not the negation of its one item or the arity error, all wins over any and any over not; malformed values build nothing |
| `ConditionBuilder.BuildsWhatIsSaid` | pkg/mpl/parser/builder.go:167-325 | the same of the specification, by induction over nested values |
| `ConditionBuilder.BuildOperands` | pkg/mpl/parser/builder.go:232-256 | the operands of all, any and not must be a list that builds |
| `ConditionBuilder.BuildChildren` | pkg/mpl/parser/builder.go:296-325 | the loop builds every child in order or fails |
| `Evaluation.FlatMeaning` | pkg/policy/engine/engine.go:207-365 | absent errors, the nested loops have the effect of running the enabled rules in order through the first matching rule that holds an allow or a deny |
| `Evaluation.ErrorFreeIff` | pkg/policy/engine/engine.go:207-304 | without cancellation, evaluation ends without an error iff no rule that is run has a condition that cannot be decided |
| `Evaluation.RuleError` | pkg/policy/engine/engine.go:280-304 | such a condition is reported with its policy, rule and cause |
| `Evaluation.TimeoutStops` | pkg/policy/engine/engine.go:223-232 | a context found cancelled before a policy is that policy's timeout |
| `Evaluation.EnabledAre` | pkg/policy/engine/engine.go:238-240 | each rule is kept or dropped by its own flag, in its place |
| `Evaluation.DecisionMeaning` | pkg/policy/engine/engine.go:207-402 | block iff that rule holds a deny, with the last deny's reason and status; else route to the last effective route; else transform iff some modify took effect; transformations, redactions and notifications are exactly the effective ones in order |
| `Evaluation.FailSafe` | pkg/policy/engine/engine.go:405-451 | for every policy set and point of cancellation: an executed deny is never followed by an error and always blocks; fail-open errors allow and had no deny; fail-closed errors block with 500; the default mode takes the default action, with 500 if that is to block |
| `Evaluation.PoliciesHonest` | pkg/policy/engine/engine.go:207-260 | throughout a run a deny is on record iff there is a block reason, and an error only ever arises while not stopped |
| `Evaluation.AuditTrail` | pkg/policy/engine/engine.go:305-365 | absent errors, the matched-rule record lists exactly the rules of the flat meaning, in order, with whether each matched and what each action returned |
| `Evaluation.RuleMeaning` | pkg/policy/engine/engine.go:263-365 | one rule without error acts exactly when its condition holds |
| `Evaluation.DenyIsDecisive` | pkg/policy/engine/engine.go:321-358 | a deny runs iff the first decisive rule holds one |
| `Evaluation.Blocks` | pkg/policy/engine/executor.go:96-125 | block reason and status are the last deny's, with the defaults |
| `Evaluation.Routes` | pkg/policy/engine/executor.go:249-293 | the routing target is the last route with a provider |
| `Evaluation.Transforms` | pkg/policy/engine/executor.go:204-246 | the transformations are the modifies that name a field, in order |
| `Evaluation.Redactions` | pkg/policy/engine/executor.go:161-201 | the redactions are those asked for, in order, with the defaults |
| `Evaluation.Notifications` | pkg/policy/engine/executor.go:296-339 | the notifications are the alerts that name a destination, in order |
| `Evaluation.Tags` | pkg/policy/engine/executor.go:430-462 | a key is tagged iff some action tags it, with the last one's value, its extracted field or true |
| `Evaluation.BlockingActionsSucceed` | pkg/policy/engine/engine.go:348-357 | a blocking action never fails, so the failed-blocking-action branch is dead |
| `Engine.EvaluationContext.Execute` | pkg/policy/engine/executor.go:27-75 | each action's effect on the context; it fails iff its kind is unknown or its required field, provider, destination or key is missing |
| `Engine.EvaluationContext.SetBlock` | pkg/policy/engine/types.go:308-312 | sets reason and status and stops |
| `Engine.EvaluationContext.Stop` | pkg/policy/engine/types.go:315-317 | stops, and changes nothing else |
| `Engine.EvaluateRule` | pkg/policy/engine/engine.go:263-365 | context and error are those of the rule's step |
| `Engine.EvaluatePolicies` | pkg/policy/engine/engine.go:207-260 | context and error are those of the nested loops the meaning is about |
| `Engine.EvaluateRequest` | pkg/policy/engine/engine.go:149-175 | returns the decision the theorems are about |
| `Priority.LoadOrderIndependent` | pkg/policy/engine/priority.go:26-146 | any two loads of the same policies and rules, sorted by any correct sorts, end in the same sequence iff different rules of a policy differ in priority or name and policies of one priority and name are the same up to rule order |
| `Priority.NormalOrder` | pkg/policy/engine/priority.go:101-146 | along every normal form policies go by falling priority and then in dictionary order of names, and so do the rules of each |
| `Priority.DenyComesFirst` | pkg/policy/engine/priority.go:71-130 | a rule without a priority of its own that holds a deny comes before one that holds nothing blocking |
| `Priority.DenyWins` | pkg/policy/engine/engine.go:207-402 | in a policy without hand-set priorities, an enabled unconditional deny blocks every request, wherever it stands, unless a rule both allows and blocks |
| `Priority.BeforeIsPrecedes` | pkg/policy/engine/priority.go:111-128 | names are compared in dictionary order |
| `Priority.SameDecisions` | pkg/policy/engine/engine.go:490-496 | so with distinct rule names inside each policy and distinct policy names every request gets the same decision |
| `Priority.SortsAgreeIff` | pkg/policy/engine/priority.go:101-130 | for a strict weak order, all correct sorts of a sequence agree iff any two different elements are ordered |
| `Priority.SortIsUnique` | pkg/policy/engine/priority.go:101-130 | when any two different elements are ordered, every correct sort returns the same sequence |
| `Priority.NormalForm` | pkg/policy/engine/priority.go:134-146 | whatever order the rules come out in before policies are compared, the result is the sort of the policies with their rules in order |
| `Priority.SameNameDiffers` | pkg/policy/engine/priority.go:117-130 | two rules of one name and priority: two correct sorts of the same policy give different decisions |
| `Priority.OrdersAreLayered` | pkg/policy/engine/priority.go:101-130 | both orders (priority descending, then name) are strict weak orders, so sorts exist |
| `Priority.GetRulePriority` | pkg/policy/engine/priority.go:71-98 | the explicit priority if not zero, else 100 for a rule with a deny, rate limit or budget, 50 for one with a route, 10 otherwise |
| `Priority.GetPolicyPriority` | pkg/policy/engine/priority.go:26-67 | the first of the eight known tags decides between 100, 50 and 10; without one, the actions of the enabled rules do |
| `Priority.NormalizePolicyPriorities` | pkg/policy/engine/priority.go:134-146 | sorts every policy's rules and then the policies, in place |
| `Priority.PolicyHolder.ReloadPolicies` | pkg/policy/engine/engine.go:454-504 | swaps in the normalised policies iff they load within both limits; otherwise the active policies stay |
| `Recorder.ExactlyOnePlace` | pkg/evidence/recorder/recorder.go:108-254 | in every run, each created record is in exactly one place (pending, overwritten, held by a responder, queued, in the worker's hand, stored, dropped) and is handed to storage at most once |
| `Recorder.CloseDrains` | pkg/evidence/recorder/recorder.go:177-218 | once Close has returned, every record queued before `done` closed has been stored, and what is still queued was queued after it |
| `Recorder.StoredIff` | pkg/evidence/recorder/recorder.go:192-218 | the exact boundary: an accepted record is stored iff the channel accepted it before the worker left |
| `Recorder.EarlyIsAtClose` | pkg/evidence/recorder/recorder.go:177-184 | that boundary is exactly what the channel had accepted when `done` closed |
| `Recorder.StoredInOrder` | pkg/evidence/recorder/recorder.go:192-254 | storage sees records in the order the channel accepted them, and the queue never exceeds its capacity |
| `Recorder.NothingAfterExit` | pkg/evidence/recorder/recorder.go:200-216 | after the worker exits nothing more is stored |
| `Recorder.RunInv` | pkg/evidence/recorder/recorder.go:108-218 | every reachable state keeps both invariants |
| `Recorder.PlacesStep` | pkg/evidence/recorder/recorder.go:108-254 | every step moves records between places and creates only the requested one |
| `Recorder.LeftBehind` | pkg/evidence/recorder/recorder.go:150-188 | a run in which Close returns and a record is left queued, neither stored nor dropped |
| `Retention.CountPruning` | pkg/evidence/retention/pruner.go:193-234 | deleting through the k-th oldest leaves at most count - k records, every survivor strictly newer than every deleted one, the archived k among the deleted, with equality (and exactly k deleted) iff no timestamp tie crosses the cutoff |
| `Retention.TieDeletesMore` | pkg/evidence/retention/pruner.go:206-234 | the archived records are all the deleted ones iff no tie crosses the cutoff |
| `Retention.TieLosesRecords` | pkg/evidence/retention/pruner.go:206-234 | for any two records of one time and a limit of one: both are deleted, one is archived |
| `Retention.LostByCount` | pkg/evidence/retention/pruner.go:182-234 | deleted but not archived are exactly what others wrote at or before the cutoff between query and delete and what lies beyond the k oldest; with no other writer, nothing iff no tie crosses the cutoff |
| `Retention.LostByAge` | pkg/evidence/retention/pruner.go:136-152 | deleted but not archived are exactly what others wrote at or before the cutoff between query and delete |
| `Retention.TrimmedMeans` | pkg/evidence/retention/pruner.go:158-234 | with no writer in between, count pruning leaves at most MaxRecords unchanged records, all newer than the deleted ones, and counts them right |
| `Retention.TrimmedNoMore` | pkg/evidence/retention/pruner.go:196-234 | as many records are archived as are too many, and whatever goes has fewer than that before it |
| `Retention.SortedListing` | pkg/evidence/retention/pruner.go:182-194 | a sorted permutation of an unlimited query is a chronicle of the whole store |
| `Retention.SortRecordsByTime` | pkg/evidence/retention/pruner.go:237-247 | the in-place exchange sort yields a sorted permutation |
| `Retention.SelectOldest` | pkg/evidence/retention/pruner.go:240-246 | one outer round puts a least remaining record in place and permutes the rest |
| `Retention.Pruner.PruneByAge` | pkg/evidence/retention/pruner.go:128-155 | removes exactly what the store holds at or before the cutoff when the delete gets to it, archives what it held when queried, and returns the number removed |
| `Retention.Pruner.PruneByCount` | pkg/evidence/retention/pruner.go:158-234 | nothing happens up to MaxRecords; above it the store present at the query decides the cutoff, and the store present at the delete loses what lies at or before it, whatever others wrote in between |
| `Retention.Pruner.Prune` | pkg/evidence/retention/pruner.go:82-125 | both phases in turn on whatever the store holds at each call, with the number removed and what was archived |
| `Retention.PrunedAlone` | pkg/evidence/retention/pruner.go:82-125 | without other writers, survivors are unchanged, newer than the cutoff, at most MaxRecords and newer than everything removed; the total is the number removed |
| `Retention.MemoryStorage.Put` | pkg/evidence/storage/memory.go:25-34 | stores under the record's identifier |
| `Retention.MemoryStorage.Find` | pkg/evidence/storage/memory.go:37-71 | a page of a list that holds each matching record exactly once, in some order |
| `Retention.PagesPartition` | pkg/evidence/storage/memory.go:55-68 | consecutive pages split the listing, each with the limit or what is left |
| `Retention.OffsetNeedsLimit` | pkg/evidence/storage/memory.go:55-68 | without a limit an offset within the listing skips nothing |
| `Retention.AddBound` | pkg/evidence/storage/memory.go:183-218 | a time or cost filter adds its inclusive bound |
| `Retention.AddTokenBound` | pkg/evidence/storage/memory.go:219-226 | a token filter adds its inclusive bound |
| `Retention.AddName` | pkg/evidence/storage/memory.go:191-201 | a user, key or provider filter adds an equation |
| `Retention.AddModelOrDecision` | pkg/evidence/storage/memory.go:199-210 | a model or decision filter adds an equation |
| `Retention.AddStatus` | pkg/evidence/storage/memory.go:228-244 | success, error and blocked add their test; any other status adds nothing |
| `Retention.MemoryStorage.Count` | pkg/evidence/storage/memory.go:133-146 | the number of matching records |
| `Retention.MemoryStorage.Delete` | pkg/evidence/storage/memory.go:149-170 | removes exactly the matching records and returns their number |
| `StickyCaches.StickyCache.Lookup` | pkg/routing/cache.go:64-79 | a hit iff the key's last assignment has neither expired nor been evicted, and then it returns that assignment's provider |
| `StickyCaches.StickyCache.Touch` | pkg/routing/cache.go:81-91 | the second critical section: updates only the access data of an entry that is still there |
| `StickyCaches.StickyCache.Set` | pkg/routing/cache.go:95-120 | records the assignment and the use; a full cache evicts for a new key unless the visit spares it; the victim is the least recently used iff the empty key is not the strictly least recently used; the size stays within the bound exactly then or when there is room |
| `StickyCaches.StickyCache.EvictLRU` | pkg/routing/cache.go:154-174 | for every visiting order: evicts nothing iff the empty key is visited last and is strictly oldest; a victim has the least last-access time iff the empty key is not the strictly oldest entry |
| `StickyCaches.SparedIff` | pkg/routing/cache.go:154-174 | some visiting order evicts nothing iff the empty key is an entry and every other entry was used strictly later |
| `StickyCaches.StickyCache.Delete` | pkg/routing/cache.go:123-128 | forgets the key in the cache and in the map it stands for |
| `StickyCaches.StickyCache.Clear` | pkg/routing/cache.go:139-144 | forgets everything |
| `StickyCaches.StickyCache.RemoveExpired` | pkg/routing/cache.go:193-207 | removes exactly the entries whose assignment has expired, none without a time to live |
| `StickyCaches.AgreesPut` | pkg/routing/cache.go:95-120 | assigning keeps the agreement of cache and unbounded map, whatever was evicted |
| `StickyCaches.AgreesSweep` | pkg/routing/cache.go:193-207 | the stamps find exactly the expired assignments, and removing them keeps the agreement |
| `StickyCaches.EmptyKeyEscapes` | pkg/routing/cache.go:154-174 | with the empty key in use, a cache for one entry holds more |
| `GitWatcher.QuietRun` | pkg/policy/git/watcher.go:170-315 | in every run in which no poll finds a new commit while a callback runs, none without policy changes while the timer is armed, the timer does not fire inside a poll, and no checkout fails: the active policies are valid and, but for the moment before a commit is recorded, those of lastCommitSHA; at rest HEAD carries them too; no reload after a rollback fails |
| `GitWatcher.QuietStep` | pkg/policy/git/watcher.go:170-315 | each atomic action of such a run keeps that invariant |
| `GitWatcher.ActiveIsValid` | pkg/policy/git/watcher.go:248-299 | in every run at all, what is active has been validated |
| `GitReloads.NotedWhileArmed` | pkg/policy/git/watcher.go:195-211 | a poll that acts while the timer is armed is bound to end right iff it changes policies or what it pulled is valid |
| `GitReloads.PollWhileArmed` | pkg/policy/git/watcher.go:180-244 | when the timer may fire before such a poll has acted, everything is bound to end right iff the pulled commit is valid and has the same policies as HEAD |
| `GitReloads.PollDuringReload` | pkg/policy/git/watcher.go:180-315 | a new commit pulled during a reload: in every order of the callbacks' actions the books end right iff the commit is harmless at the point the reload has reached, case by case |
| `GitReloads.ReloadOvertaken` | pkg/policy/git/watcher.go:229-299 | a poll between the timer and the read: the callback rolls back, the next one loads the old commit and records the invalid one, for good, and the next rollback fails |
| `GitReloads.RollbackDefeated` | pkg/policy/git/watcher.go:195-315 | for any good, invalid and non-policy commit in a row, a run in which the rollback lands on the invalid policies and cannot reload |
| `GitWatcher.Watcher.PullChanges` | pkg/policy/git/watcher.go:170-188 | the pull is the machine's step |
| `GitWatcher.Watcher.ActOnChanges` | pkg/policy/git/watcher.go:195-213 | skipping the commit or arming the timer is the machine's step |
| `GitWatcher.Watcher.TimerFires` | pkg/policy/git/watcher.go:229-244 | a fired timer starts one more callback, beside those still running |
| `GitWatcher.Watcher.PerformReload` | pkg/policy/git/watcher.go:248-315 | each action of a callback (read, activate, record; read lastCommitSHA, check out, read again, activate) is the machine's step |

## Left out

- HTTP server, proxying, provider clients, streaming, TLS, the command line: input and output.
- SQLite stores, YAML decoding, JSON and CSV export, archive files and their errors, cron: foreign libraries behind a contract.
- Regular expressions, reflection on request fields, redaction of text, string conversions: one abstract result per leaf condition or action.
- Configuration defaults, environment overrides and the other field validators: long lists of easy checks.
- Logging, metrics, tracing and error texts.
- `limits.Manager`, the enforcer, routing strategies and statistics: thin dispatch over the modelled parts.
- Reset methods of the limiters, which break the pairing of Acquire and Release; the status getters of limiter and tracker.
- The suggestions for operators, action types and missing fields: the search over names is the one modelled.
- Streaming queries and negative offsets of the in-memory store.
- Nil action pointers in a policy, and a pull that fails after it has moved HEAD.
- Window shapes whose bucket is zero or negative, which no caller creates.
- Timeouts of a policy evaluation as times: cancellation is an arbitrary answer at each look at the context.
- Policy files changing under a read that has begun.
