# Task service: model and proofs

A Dafny model of a team task tracker: tasks with a change history, teams that grow by invitation, a cache of task
lists, and a per-user rate limiter. The services, repositories, cache and limiter are classes that change their state
step by step; each method is proved to do what a specification function says, and the theorems are about runs of those
functions.

## How the model is put together

* **Requests** are a small-step system (`Requests`). `Begin` does a request's reads and checks; `Advance` performs one
  table or cache action at a time, each delete of an invalidation on its own and an update's transaction as one.
  Every fault (a failing read, insert, begin, commit, Get, Set, k-th Del, k-th history insert) and the clock are fields of
  `Env`, so every theorem that quantifies over `Env` quantifies over faults.
* **Sequential** semantics: `Serve` runs a request's actions without interruption; `Runs` strings calls and cache
  evictions together. **Interleaved** semantics: `Interleaving` lets any request take its next action at any time, die,
  or lose cache entries. `Scheduling.ServeIsASchedule` shows the first is a schedule of the second.
* **Outcomes** states each request's answer and effect without the functions that compute them: which failure it gets
  when, and on success every field of every new row, item or entry, with limits, roles, statuses and times in numbers and
  literals. The service methods are proved equal to `Serve`, so this holds of them.
* **Statements** are compiled to text and positional arguments as the repository does, and `Sql` reads that text back
  left to right, taking the next argument at each `?`, and evaluates it on the rows.
* **Maps** are built with updates and subtraction, never with comprehensions: in Dafny 4.11 two map comprehensions over
  equal domains can contradict each other.
* **Time** is whole seconds for rows and cache entries, and exact reals for the limiter.

Files, from the bottom up: `Wrappers`, `Text`, `Entities`, `Filter`, `Sql`, `Tables` (data and specification functions);
`Queries`, `CacheIndex`, `Requests`, `Invariants`, `Runs`; the theorems `CacheTheorems`, `CacheLimits`,
`CacheStaleness`, `HistoryReplay`, `Stats`, `Interleaving`, `StaleUpdates`, `InterleavedStats`, `Membership`,
`Scheduling`, `InterleavedCache`, `ListProvenance`, `Atomicity`, `Outcomes`; the imperative side `Repositories`, `CacheStore`,
`Services`; and `RateLimit`, `RateTheorems`.

## Where the code falls short of the obvious claim

Each failure comes with a run, or a call, that shows it; where the condition is exact the entry says "if and only if".

* A cached list can be told from an uncached one. The key omits the limit and the assignee, only pages 1..100 are ever
  invalidated, and an invalidation stops at its first failing delete. `CacheLimits.TransparentIffDisciplined`: over a set
  of filters, caching is invisible in every sequential run whose invalidations reach their k-th delete **if and only if**
  each filter's key comes up before that and no two filters share a key; for k = 400, all deletes, the first half says
  "no page beyond 100". `CacheLimits.FailingDel` and `SharedKey` are the runs.
* A cached answer can be another filter's. What survives everything in sequential runs is that it is what the tables
  answered to some filter with that key at most five minutes earlier (`CacheStaleness.AnswerSeen`), with as many items as
  it says (`CacheStaleness.ServedPagesConsistent`). It is that for the filter asked for, in every run, **if and only if**
  a filter that shares a key with one whose answer can be cached is that one (`CacheStaleness.BoundedIffAgreeing`); a list
  whose offset overflows, which fails uncached, is otherwise served another list's answer.
* Interleaved, cached lists go out of date with no fault at all: when a list stores an answer a write has overtaken and
  the delete of its key is not on its way any more, even if the rest of the invalidation is, or when an invalidation dies
  or fails before it has come to something out of date that no other one will delete. Entries stay current throughout
  **if and only if** no event is of these two kinds (`InterleavedCache.FreshThroughoutIff`). On the schedule, it is enough
  that overtaken lists store while the delete of their own key is still on its way
  (`ListProvenance.ConsiderateStaysFresh`) or that no write commits while a list of its team holds rows
  (`InterleavedCache.InterleavedCacheFresh`), if invalidations neither die nor fail early. `Scheduling.StoreBetweenDels`
  (with `StoreAfterInvalidate` as its last case) and `InterleavedCache.AbandonedInvalidation` are the runs.
* Interleaved, an answer may combine rows and a total read at different times (`ListProvenance.HalfListing` is the run). It
  is whole when counted **if and only if** the rows read are still the filter's page then (`ListProvenance.WholeIff`, and
  `StoredWholeIff` for all stored answers of a run). In runs where they always are, every cached answer is the uncached
  one to a filter with that key at a moment before a store at most five minutes old (`ListProvenance.HitsBounded`); it is
  enough that no write of a team commits between the two reads of one of its lists (`ListProvenance.UncutPagesStood`).
* An update compares with a row read before its transaction. In every interleaving the history folds to the current rows
  throughout **if and only if** no committed update writes back, unlogged, a value it had read and the row has lost since
  (`StaleUpdates.FoldsThroughoutIff`), and replays, undoes and chains **if and only if** every committed update had read
  the live values of the fields it mentions (`StaleUpdates.ReplaysThroughoutIff`). `StaleUpdates.HistoryLosesTitle` is
  the run. The assignee is logged always, so its replay survives every interleaving (`Interleaving.AssigneeReplay`).
* For the same reason two racing updates can finish one task twice (`InterleavedStats.FinishedOnceCountedTwice`). In every
  interleaving the history accounts for a team's status total throughout **if and only if** no committed update that
  mentions the status had misread whether the task was in it (`InterleavedStats.ConservedThroughoutIff`), and counts what
  was finished in a window **if and only if** none that asks for done had (`InterleavedStats.CountsThroughoutIff`).
* Dropping idle rate-limit buckets can be noticed. It cannot **if and only if** `ttl * rps >= burst`
  (`RateTheorems.InvisibleIff`), which the hourly collection meets for the configured 1.67 and 100;
  `RateTheorems.GcNoticed` is the run when it does not hold. The bound of burst + rps*w requests in any window of length w
  holds of all runs **if and only if** the same condition does (`RateTheorems.BoundedIff`). Accepted configurations fail
  it, for example a rate of 0.01 with a burst of 100.
* Team creation is two writes without a transaction. A team is left without members **if and only if** the creation gets
  past its checks and its first write and then fails at its second (`Atomicity.TeamLostIff`) or dies before it
  (`Membership.LostIff`, reached by `Membership.LostReached`), and stays empty for ever (`Membership.LostForEver`).
* List answers the page asked for **if and only if** `(Page-1)*Limit` fits a 64-bit integer or wraps to an offset past the
  last match as well (`Queries.ListExactIff`); `Queries.FirstPageAgain` is a page number that is served the first page.
* Deleted tasks refuse updates and deletes but can still be fetched and commented on
  (`Atomicity.DeletedRefusesWrites`).

## Where the documentation says otherwise

* The repository's README.md:94 promises 100 requests a minute per user. The limiter enforces a burst and a rate, so a
  window of w seconds admits up to burst + rps*w requests provided the hourly collection meets ttl*rps >= burst, and that
  many do get through (`RateTheorems.RateAttained`): with the configured 100 and 1.67, 200 in one minute.
* The comment at internal/service/task_cache.go:75 calls 100 pages more than any reasonable pagination; the page number
  has no upper bound (internal/dto/filter.go:46-50), and beyond it lists go stale.

## Model

| member | source | states |
|---|---|---|
| Text.PrintParseRoundTrip | internal/dto/filter.go:31-56 | printing a number in decimal and parsing it back gives the number, for every value the parameter's type holds |
| Text.TrimSpaceShrinks | internal/service/task_service.go:49-73 | trimming never lengthens a title in bytes, so the 255-byte limit checked before trimming holds of what is stored |
| Text.ParseExact | internal/dto/filter.go:31-56 | a parameter parses to n iff it is n's decimal form with zeros in front, for Atoi possibly signed, and n fits |
| Text.TrimSpaceExact | internal/service/task_service.go:73 | trimming takes all the white space off both ends and nothing else |
| Text.ByteLenExact | internal/service/task_service.go:52 | the length checked is that of the UTF-8 encoding, from which the text can be read back |
| Entities.ParseTaskStatusExact | internal/entity/task_status.go:22-33 | a string parses to a status iff it is todo, in_progress or done and the string is spelled like it up to ASCII capitals |
| Entities.ToLower | internal/entity/task_status.go:44-52 | in place, every ASCII capital becomes its small letter and nothing else changes |
| Entities.IsValid | internal/entity/task_status.go:35-42 | the search through the list accepts exactly the three statuses |
| Entities.ParseTaskStatusCanonical | internal/entity/task_status.go:22-33 | a string parses iff its lower-case form is a status, the result is always valid, and canonical spellings are fixed points |
| Filter.BindTaskFilter | internal/dto/filter.go:25-65 | the defaults, overrides and clamps come to `Bound`, parameter by parameter, for every query string |
| Filter.BoundIsValid | internal/dto/filter.go:58-64 | every query string binds to 1 <= limit <= 100, a positive page that fits an int and a valid or empty status |
| Filter.BoundExact | internal/dto/filter.go:25-65 | limit 20 by default and cut to 1..100, page 1 unless a positive one is asked for, and no team, assignee or status where none parses |
| Filter.BindRoundTrip | internal/dto/filter.go:25-65 | every valid filter can be asked for: binding its rendering gives it back |
| Filter.OffsetExactIff | internal/dto/filter.go:67 | the wrapped 64-bit offset is the true one iff (Page-1)*Limit < 2^63 |
| Queries.FilterTermsMean | internal/repository/task_repo.go:65-78 | the conditions hold of a row iff it is live and matches team, status and assignee |
| Queries.FilterPlaceholders | internal/repository/task_repo.go:59-85 | the WHERE text holds as many `?` as there are arguments |
| Queries.ListQueryMeans | internal/repository/task_repo.go:87-103 | the text of List, read left to right with its arguments, selects the filter's live tasks in id order and then its LIMIT/OFFSET window; a negative window is an error |
| Queries.CountQueryMeans | internal/repository/task_repo.go:105-117 | the text of Count counts exactly the tasks List selects |
| Queries.PatchTermsMean | internal/repository/task_repo.go:138-157 | executing the SET assignments with their arguments applies the patch to a row |
| Queries.PatchQueryMeans | internal/repository/task_repo.go:159-162 | the whole UPDATE text patches the one live row with that id and touches nothing else |
| Queries.DeleteQueryMeans | internal/repository/task_repo.go:203-212 | the soft-delete text marks the one live row deleted and touches nothing else |
| Queries.PaginationPartition | internal/repository/task_repo.go:87-103 | pages 1..ceil(total/limit) concatenated are all matches, strictly ascending by id, none missed or repeated; later pages are empty; each page is what List returns unless the offset overflows |
| Queries.ListExactIff | internal/dto/filter.go:67 | List answers the true page iff the offset does not overflow, or wraps to one past the last match as well |
| Queries.FirstPageAgain | internal/dto/filter.go:67 | a valid page number far beyond the last page that is answered with the first page again |
| Tables.PatchMeaning | internal/service/task_service.go:289-324 | hasChanges iff the patch is non-empty; never both set and clear; applied, it writes exactly the mentioned fields, title trimmed and assignee 0 meaning none |
| CacheIndex.KeyExact | internal/service/task_cache.go:17-23 | two filters share a key iff they agree on team, status and page |
| CacheIndex.DeletionExact | internal/service/task_cache.go:69-84 | a filter's key is among the first k Invalidate deletes iff it is that team's, its page is 1..100 and it comes up before; all 400 together cover exactly pages 1..100 |
| CacheIndex.DelExact | internal/service/task_cache.go:74-81 | the n-th delete drops a filter's key iff it is that team's, its page is 1..100 and it comes up there |
| Requests.CompleteInvalidate | internal/service/task_cache.go:69-84 | the deletes taken one at a time come to dropping the team's keys before the failing one |
| Invariants.EntriesExact | internal/repository/history_repo.go:41-53 | reading a task's history gives exactly its entries in ascending id order |
| Invariants.AdvanceKeeps | internal/service/task_service.go:47-230 | every action of every request keeps the tables' invariant, lets rows only evolve, and leaves what the request's next action relies on |
| Runs.RunKeeps | internal/service/task_service.go:47-230 | the tables' invariant holds throughout every sequential run |
| Runs.TablesIgnoreCache | internal/service/task_service.go:126-154 | with or without a cache a run leaves the same tables, and every call but List answers the same |
| Runs.ServeShape | internal/service/task_service.go:157-230 | a sequential call changes tasks and history by at most one table action, and an update's `existing` is then the current row |
| Runs.TeamFrame | internal/service/task_service.go:203 | a create, update or delete in one team leaves every list, count and response of every other team as it was |
| Runs.InvalidateFrame | internal/service/task_cache.go:69-84 | invalidating one team leaves every cached list of every other team |
| CacheTheorems.CacheStaysFresh | internal/service/task_cache.go:39-84 | in every sequential run whose invalidations reach their k-th delete, over all other faults and whatever limits and assignees are asked for, each entry under one of a team's first k keys is the current response to some filter with that team, status and page |
| CacheTheorems.ServedPagesCurrent | internal/service/task_service.go:126-154 | so in such a run every answer to a list those deletes cover is the current response to some filter with that team, status and page |
| CacheTheorems.DisciplineSuffices | internal/service/task_service.go:111-155 | for filters those deletes cover that do not share keys, every reply of every such run, failing queries included, is the reply with a nil cache; a list whose own queries fail may instead get what it would have got had they not |
| CacheLimits.TransparentIffDisciplined | internal/service/task_cache.go:17-84 | over any set of valid filters and for every k <= 400, caching is invisible in every sequential run whose invalidations reach their k-th delete iff each key comes up before that and no two filters share one |
| CacheLimits.UncoveredKey | internal/service/task_cache.go:76-80 | any cacheable filter whose key does not come up before the k-th delete gives a run with an out-of-date answer |
| CacheLimits.SharedKey | internal/service/task_cache.go:22 | any two filters that share a key but differ give a run in which one is served the other's answer |
| CacheLimits.FailingDel | internal/service/task_cache.go:78-80 | one failing delete gives a stale answer to every filter whose key comes up no earlier, and with none failing a page beyond 100 still does |
| CacheStaleness.AnswerSeen | internal/service/task_cache.go:15 | under every fault, for every page and whatever filters share keys, each answer is what the tables answered to some filter with that key at some call at most five minutes earlier |
| CacheStaleness.BoundedStaleness | internal/service/task_cache.go:15 | when filters that share a key with a cacheable one are that one, that filter is the one asked for, overflowing offsets included |
| CacheStaleness.BoundedIffAgreeing | internal/service/task_cache.go:15-22 | over a set of filters, answers are never more than five minutes out of date in any run iff every filter that shares a key with a cacheable one is that one |
| CacheStaleness.ServedPagesConsistent | internal/service/task_service.go:126-154 | in every sequential run, under every fault and for every page whose offset cannot overflow, an answer has min(limit, max(0, total-(page-1)*limit)) items by its own metadata |
| HistoryReplay.EntriesLead | internal/service/task_service.go:326-391 | the entries of one update lead, linked, from the old row's fields to the new row's |
| HistoryReplay.UndoReplay | internal/service/task_service.go:326-391 | folding OldValues backwards undoes folding NewValues forwards over any linked history |
| HistoryReplay.OldIsPreviousNew | internal/service/task_service.go:334-389 | in a linked history each OldValue is the previous NewValue of the same field |
| HistoryReplay.HistoryIsReplayable | internal/service/task_service.go:184-198 | in every sequential run with faults, each task's history replays from its created row to its current row, undoes back, and its consecutive entries fit |
| Stats.StatusConservation | internal/service/task_service.go:355-364 | in every sequential run, per team and status: tasks in it = tasks created in it + entries into it - entries out of it |
| Stats.DoneCountsMoves | internal/repository/stats_repo.go:31-39 | the history count for a window equals the number of updates in it that moved a task of the team from not done to done |
| Stats.StatsRowsExact | internal/repository/stats_repo.go:22-42 | one row per team in id order, with its name, member count and count of done entries, and no other row |
| Stats.MemberCountExact | internal/repository/stats_repo.go:26-30 | the member count is the number of users in the team |
| Stats.WeeklyStatsCountMoves | internal/repository/stats_repo.go:21-49 | every row of the weekly statistics reports exactly those updates of the last seven days |
| Interleaving.RunKeepsWorld | internal/service/task_service.go:47-230 | in every interleaving the tables' invariant and every suspended request's assumptions hold, and rows only evolve |
| Interleaving.Tombstone | internal/repository/task_repo.go:203-226 | in every interleaving a deleted task's row and history never change again and no fresh list or count includes it |
| Interleaving.TombstoneRefuses | internal/service/task_service.go:157-230 | in every interleaving, once a task is deleted each later start of a changing update or delete of it fails or is a member's valid one left waiting, and each waiting one fails, changes nothing, and says not found iff no fault stops it first |
| Interleaving.AssigneeReplay | internal/service/task_service.go:365-389 | in every interleaving the NewValue of a task's last assignee entry is its assignee, or there is none and it is as created |
| Interleaving.AssigneesTrackedAlways | internal/service/task_service.go:365-389 | the same of every interleaving from the empty service |
| StaleUpdates.ReplaySurvivesIff | internal/service/task_service.go:167-198 | after one update whose `existing` may be stale, the history still replays to the row iff the update is not of the unrecorded kind |
| StaleUpdates.ChainSurvivesIff | internal/service/task_service.go:334-389 | the OldValue chain holds after it iff the logged fields of `existing` are the live row's; chain and replay hold iff all mentioned fields are |
| StaleUpdates.FoldsThroughoutIff | internal/service/task_service.go:184-198 | in every interleaving NewValues fold to the current rows throughout iff no committed update is of the unrecorded kind |
| StaleUpdates.ReplaysThroughoutIff | internal/service/task_service.go:184-198 | in every interleaving histories replay and chain throughout iff every committed update had read the live values of what it mentions |
| StaleUpdates.HistoryLosesTitle | internal/service/task_service.go:334 | a fault-free interleaving that ends with title "x" and a history ending in "y" |
| InterleavedStats.ConservedThroughoutIff | internal/service/task_service.go:355-364 | in every interleaving the history accounts for a team's total of a status throughout iff no committed update mentioning the status of one of its tasks had misread whether the task was in it |
| InterleavedStats.CountsThroughoutIff | internal/repository/stats_repo.go:31-39 | in every interleaving the history counts exactly the updates of a window that finished a task, throughout, iff none of them that asks for done had misread whether it was |
| InterleavedStats.InterleavedWeeklyStats | internal/repository/stats_repo.go:21-49 | each weekly row of such a run reports those updates |
| InterleavedStats.FinishedOnceCountedTwice | internal/service/task_service.go:355 | a fault-free interleaving of two updates finishes one task and counts it twice |
| Membership.TeamsOwnedOrEmpty | internal/service/team_service.go:33-117 | in every interleaving with faults a team has its creator as owner and each member on a repetition-free chain of owner or admin invitations from the creator, or has no members, tasks or comments |
| Membership.LostIff | internal/service/team_service.go:61-69 | a team awaiting its owner is lost by an event iff its request dies or its second write fails |
| Membership.LostReached | internal/service/team_service.go:33-71 | from the empty service, any registered user's valid creation can lose its team |
| Membership.LostForEver | internal/service/team_service.go:61-69 | a team lost that way stays memberless, without tasks or comments, in every continuation |
| Membership.WritersAreMembers | internal/service/comment_service.go:52-72 | in every interleaving each task creator, history author and commenter is a member of that task's team |
| Scheduling.ServeIsASchedule | internal/service/task_service.go:47-230 | a sequential call is one schedule of the interleaved semantics |
| Scheduling.StoreBetweenDels | internal/service/task_cache.go:74-81 | for every cacheable filter and every number of deletes that come before an overtaken list stores, in a fault-free interleaving, the stale answer is left behind iff its own key's delete, if there is one, is among them |
| Scheduling.StoreAfterInvalidate | internal/service/task_service.go:130-153 | for every cacheable filter a fault-free interleaving leaves the cache serving an answer the tables no longer give |
| InterleavedCache.FreshThroughoutIff | internal/service/task_service.go:126-230 | in every interleaving and over every fault, each entry under a team's first k keys is current or the delete of its key is still to come, throughout, iff no event stores an out-of-date answer without that or ends an invalidation before it comes to something out of date that no other will delete |
| InterleavedCache.InterleavedCacheFresh | internal/service/task_service.go:126-230 | so it is when no write of a team commits while a list of it holds rows and no invalidation dies or fails before it has done its first k deletes |
| InterleavedCache.AbandonedInvalidation | internal/service/task_service.go:81-90 | for every cacheable filter a fault-free interleaving with one request that dies before its invalidation leaves a stale answer |
| ListProvenance.EntriesTraceable | internal/service/task_service.go:130-153 | in every interleaving each entry was stored by one list that had itself read its items and then its total |
| ListProvenance.HitsTraceable | internal/service/task_cache.go:15 | and every cached answer was stored that way at most five minutes before it is served |
| ListProvenance.WholeIff | internal/service/task_service.go:130-146 | an answer is the uncached one when its list counted iff the rows it had read are still the filter's page then |
| ListProvenance.WholeIfUncut | internal/service/task_service.go:130-146 | and it is if no task write of the team committed between its two reads |
| ListProvenance.HalfListing | internal/service/task_service.go:130-146 | a fault-free interleaving in which a list of the first page answers no items and a total of one, which the tables answered at no moment |
| ListProvenance.StoredWholeIff | internal/service/task_service.go:130-153 | in every interleaving, every stored answer was the uncached one when counted iff every storing list's rows were still its filter's page then |
| ListProvenance.UncutPagesStood | internal/service/task_service.go:130-146 | they were if no task write of a team commits between the two reads of one of its lists |
| ListProvenance.HitsBounded | internal/service/task_cache.go:15 | in every interleaving in which they were, each cached answer is the uncached one to a filter with that key at a moment before a store at most five minutes old |
| ListProvenance.ConsiderateStaysFresh | internal/service/task_service.go:151-153 | in every interleaving in which no invalidation dies or fails before it has done its first k deletes, and a list overtaken by a write of its team stores only while the delete of its own key is still to come, entries are current or that delete is still to come |
| Atomicity.UpdateAllOrNothing | internal/service/task_service.go:184-206 | a failed update leaves tables, history and cache as they were; a successful one wrote the row and all its entries and dropped the team's lists |
| Atomicity.UpdateSucceedsIff | internal/service/transactor.go:27-47 | a member's valid update of a live task succeeds iff no statement of its transaction fails and the new assignee exists |
| Atomicity.DeletedRefusesWrites | internal/repository/task_repo.go:44-56 | a deleted task refuses updates with changes and deletes with not found, and can still be fetched and given any comment of 1 to 4000 bytes |
| Atomicity.FailureLeavesNothing | internal/service/team_service.go:55-69 | a failed request leaves tables and cache as they were iff it is not a team creation failing at its second write, which leaves exactly a team without members |
| Atomicity.TeamLostIff | internal/service/team_service.go:33-71 | creating a team leaves it memberless iff the trimmed name has 1 to 100 bytes, the actor is registered, reads and first write succeed and the second write fails |
| Atomicity.MembersOnly | internal/service/task_service.go:62-68 | whoever is not a member of the team a request is about gets a failure and changes nothing, for every request but creating a team |
| Outcomes.CreateAnswers | internal/service/task_service.go:47-92 | a creation succeeds iff the title is neither blank nor over 255 bytes, the status valid, the actor in the team, the assignee registered or absent and neither read nor write fails; it then adds exactly the row asked for, field by field, answers it and drops the team's lists; which failure it gets otherwise |
| Outcomes.GetAnswers | internal/service/task_service.go:94-109 | a fetch answers the row, deleted or not, to its team's members only |
| Outcomes.ListAnswers | internal/service/task_service.go:111-155 | a list answers what the cache holds, or shows field by field its window of all wanted live tasks in id order with their number, and stores that for 300 seconds; when it fails and how |
| Outcomes.UpdateAnswers | internal/service/task_service.go:157-207 | an update succeeds iff it is valid, the actor is in the team of the task and, if it mentions anything, the row is live, the assignee registered and the transaction without fault; it then rewrites exactly the mentioned fields, logs one entry a changed field, values included, and drops the team's lists; which failure otherwise |
| Outcomes.DeleteAnswers | internal/service/task_service.go:209-230 | a member's delete of a live task succeeds iff neither read nor write fails; it then marks that row deleted and changes nothing else but the team's lists; which failure otherwise |
| Outcomes.DeleteHappens | internal/repository/task_repo.go:203-226 | interleaved, a waiting delete marks its row if live and goes on to invalidate, or fails and changes nothing |
| Outcomes.HistoryAnswers | internal/service/task_service.go:232-263 | a history request of a member succeeds iff neither read nor query fails; the answer holds exactly the task's entries in ascending id order |
| Outcomes.AnsweredHistoryReplays | internal/service/task_service.go:232-263 | in every sequential run what is answered replays from the created row to the current one, undoes it, and chains |
| Outcomes.CreateTeamAnswers | internal/service/team_service.go:33-71 | a team creation succeeds iff the trimmed name has 1 to 100 bytes, the actor is registered and nothing fails; it then adds exactly that team and the actor as its owner |
| Outcomes.InviteAnswers | internal/service/team_service.go:74-117 | an invitation succeeds iff the team exists, the actor is its owner or admin, the user is registered and not in it, the role is valid and nothing fails; it then adds exactly that user with the role asked for; which failure otherwise |
| Outcomes.CommentAnswers | internal/service/comment_service.go:40-73 | a comment is accepted iff its trimmed text has 1 to 4000 bytes, the caller is in the task's team and nothing fails; that text is then stored under the next id; which failure otherwise |
| Repositories.TaskRepo.Create | internal/repository/task_repo.go:22-42 | a new row under the next id, or an error that leaves the tables alone |
| Repositories.TaskRepo.BuildTaskListWhere | internal/repository/task_repo.go:58-85 | the clause, arguments and conditions are those of the filter's terms, with a `?` per argument |
| Repositories.TaskRepo.List | internal/repository/task_repo.go:87-103 | executing the built text returns the filter's page of live tasks |
| Repositories.TaskRepo.Count | internal/repository/task_repo.go:105-117 | executing the built text returns the number of matching live tasks, despite the extra branch |
| Repositories.TaskRepo.BuildSet | internal/repository/task_repo.go:135-157 | the assignments and arguments are those of the patch's terms |
| Repositories.TaskRepo.UpdateTx | internal/repository/task_repo.go:124-182 | the patched row, or not found iff it is missing or deleted, whatever RowsAffected counts; the empty patch only reads |
| Repositories.TaskRepo.SoftDelete | internal/repository/task_repo.go:203-226 | marks a live row deleted, or reports not found and changes nothing |
| Repositories.HistoryRepo.InsertTx | internal/repository/history_repo.go:28-39 | appends the entry under the next id, or changes nothing |
| Repositories.TeamRepo.AddMember | internal/repository/team_repo.go:77-89 | adds the membership row, rejecting a second one for the same user and team |
| CacheStore.TaskListCache.Get | internal/service/task_cache.go:39-56 | a nil cache, a failing Get, an absent and an expired entry are all misses |
| CacheStore.TaskListCache.Store | internal/service/task_cache.go:58-67 | stores the response under the filter's key for five minutes, or does nothing |
| CacheStore.TaskListCache.Invalidate | internal/service/task_cache.go:69-84 | the nested loops delete exactly the team's keys up to the first failing Del |
| Services.BuildPatchRich | internal/service/task_service.go:289-324 | builds `BuildPatch`'s patch, counting changes as it goes; with changes the patch is never empty or contradictory |
| Services.BuildHistoryEntries | internal/service/task_service.go:326-391 | appends the entries of `HistoryEntries` |
| Services.TaskService.Create | internal/service/task_service.go:47-92 | does to tables and cache, and answers, what the sequential request does |
| Services.TaskService.Get | internal/service/task_service.go:94-109 | likewise, changing nothing |
| Services.TaskService.List | internal/service/task_service.go:111-155 | likewise: cache, then query, count and store |
| Services.TaskService.InsertEntries | internal/service/task_service.go:191-196 | inserts the entries in order, stopping at the first failure |
| Services.TaskService.UpdateWithinTx | internal/service/transactor.go:27-47 | commits the row with all its entries, or rolls back to the tables as they were |
| Services.TaskService.Update | internal/service/task_service.go:157-207 | does what the sequential request does; a failed update leaves tables and cache unchanged |
| Services.TaskService.Delete | internal/service/task_service.go:209-230 | does what the sequential request does |
| Services.TaskService.TaskHistory | internal/service/task_service.go:232-263 | does what the sequential request does |
| Services.TeamService.Create | internal/service/team_service.go:33-71 | does what the sequential request does: two writes, no transaction |
| Services.TeamService.InviteMember | internal/service/team_service.go:74-117 | does what the sequential request does, checks in the source's order |
| Services.CommentService.Create | internal/service/comment_service.go:40-73 | does what the sequential request does |
| RateLimit.TokenBucket.Allow | internal/middleware/ratelimit.go:86 | refills up to the burst for the time elapsed and takes a token if there is a whole one, else leaves the bucket alone |
| RateLimit.PerUserLimiter.Get | internal/middleware/ratelimit.go:40-54 | hands out the user's own bucket, a full one if new, recording the use; user 0 gets the shared one |
| RateLimit.PerUserLimiter.Request | internal/middleware/ratelimit.go:84-93 | one decision, changing that user's entry only |
| RateLimit.PerUserLimiter.Gc | internal/middleware/ratelimit.go:57-69 | the loop drops exactly the entries idle for longer than ttl, none when ttl is not positive |
| RateTheorems.GcInvisible | internal/middleware/ratelimit.go:57-69 | for any timed run with collections anywhere, each with ttl*rps >= burst, every decision is the one made without collections |
| RateTheorems.Isolation | internal/middleware/ratelimit.go:40-54 | every decision is the one made if nobody else had sent anything, whatever collections there are |
| RateTheorems.IsolationPatient | internal/middleware/ratelimit.go:40-54 | with patient collections, the one made with neither other requests nor collections |
| RateTheorems.SharedBucket | internal/middleware/ratelimit.go:44-46 | all requests of user 0 share one bucket that no collection touches |
| RateTheorems.RateBound | internal/middleware/ratelimit.go:84-93 | when every collection has ttl*rps >= burst, any window of length w lets at most burst + rps*w requests of a user through |
| RateTheorems.BoundedIff | internal/middleware/ratelimit.go:57-69 | that bound holds of all runs with a ttl iff ttl*rps >= burst |
| RateTheorems.AdmitsIff | internal/middleware/ratelimit.go:84-93 | a request gets through iff letting it through keeps every window that ends with it within burst + rps*w |
| RateTheorems.RateAttained | internal/middleware/ratelimit.go:84-93 | the bound is attained for every w: burst + k requests get through within w, for every whole k <= rps*w |
| RateTheorems.GcNoticed | internal/middleware/ratelimit.go:57-69 | whenever an emptied bucket is not yet full at a time after ttl, a run whose last request gets through only because of a collection then |
| RateTheorems.InvisibleIff | internal/middleware/ratelimit.go:57-69 | collecting after ttl is invisible in every run iff ttl*rps >= burst |

## Left out

- HTTP handlers, routing, metrics, configuration, JWT, bcrypt, connection pools, contexts and timeouts: plumbing around the logic above.
- The text of the statistics queries: the weekly statistics are computed on the tables directly. TopCreatorsByTeam and OrphanTasks are left out altogether, as their work is done by the SQL engine.
- Team and comment listings, UpdateMemberRole and RemoveMember: one query each; no service calls the last two.
- Statement heads before WHERE or SET, the column lists of SELECT and INSERT, and white space between SQL keywords of fixed statements are not read back.
- Collation: the database compares statuses exactly, which is enough as statuses come from a fixed list.
- JSON encoding of cached responses: the response itself is stored. Timestamps are integers and are not formatted.
- CacheStaleness.BoundedStaleness: stated for sequential runs; ListProvenance.HitsBounded is the interleaved form, under its condition.
- Interleaving.Happen: a request's reads before its first write are one step, and an update's transaction is one step, since it holds the row.
- Transactions whose commit is reported failed but took effect, and gaps that a rolled-back insert leaves in AUTO_INCREMENT ids.
- Ids are unbounded naturals; running out of 64-bit ids is not modelled.
- Foreign keys other than the assignee's: the invariant shows they cannot be violated; user and team deletion do not exist.
- Services.TaskService.UpdateWithinTx: the closure passed to WithinTx is written out in place.
- Services.TeamService.InviteMember: named so because the request constructor is called Invite.
- RateLimit.TokenBucket: exact real arithmetic and one clock reading per request; the rounding of x/time/rate and a collection between looking a bucket up and using it are not modelled.
- Strings are sequences of Unicode scalar values, with byte lengths computed from UTF-8; invalid UTF-8 is not modelled.
