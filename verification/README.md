# Verified core of Kanivet

Kanivet is a desktop console for Kubernetes clusters. This project models, in
Dafny, the parts of its backend (Go) and of its Electron shell (JavaScript)
whose correctness depends on more than one function, and proves what those
parts promise. `dafny verify dfyconfig.toml` checks all of it.

## What is modelled

**The shared cache** (`backend/internal/cache`). `CacheState` gives the effect
of each section under the cache's lock. `CacheObject` is the cache itself, each
method proved to have exactly that effect. `CacheProtocol` lets any number of
reads, fetches, refreshes, invalidations and deletions interleave section by
section; `CacheSafety` proves an inductive invariant of every reachable state
and `CacheTheorems` draws the promises from it; `CacheRuns` restates them for
the text of an invalidation and adds what values and clocks have to do with it.
A clock reading taken before the lock is a step of its own.

The comment on `GetOrSetSWR` says that a read after an invalidation waits for
the fetch. That fails in one case, found here: a call that began after the
invalidation reads the clock, a *second* `Invalidate` with a later reading then
overtakes it and moves the entry's mark past the call's reading, and the call
takes the marked entry for fresh. `SwrCanServeOldValue` runs the case,
`MarkedEntryServedIff` says exactly when it happens, and `SwrSeesInvalidations`
is the promise with that exception. `Get` and `GetOrSet` have no exception.

**Comparing objects** (`backend/internal/compare`). `Compare` holds the
structural diff and the declared-only pruning, `CompareReport` the loop that
writes the report and its paths. Proved: the diff is symmetric
(`CompareLaws`), its lines tell exactly where the documents differ and what
each has there (`CompareValues`), without null list items it is empty exactly
for equal canonical forms (`CompareCanon`), printed paths split back into their
segments (`ComparePaths`), and no two lines of a report share a path.

Pruning is to hide the fields that the server filled in and nothing else. It
matches the items of a list by name before it prunes them, the diff matches
them again afterwards, and an item declared by `key` and called by `name` in
the live object changes its name on the way. `CompareDrift` proves the drift
to be the live comparison less the changes at undeclared map keys for `Aligned`
documents, of which there are two cases. Where both lists have names of their
own, pruning must leave paired items theirs, for which it is enough that they
are identified by the same field. Where the live list has no such names and
only pruning gives it some, the two comparisons work differently, and every
declared field must be as declared (`Satisfies`, defined on the documents in
`CompareSatisfied` and proved to be what an empty live comparison means).
`CompareDriftExact` proves the condition exact where whatever could identify an
item is text or an integer, and that there an object with every declared field
as declared shows no drift, aligned or not. The converse needs alignment: where
two named items have exchanged their keys, no drift shows
(`PermutedNamesHideDrift`).

The summary is a list of rules read off the two documents (`SummaryRules`),
applied by the summarizer (`Summarizers`). `ClaimRules` proves that any list of
rules accounts for every change once, and `SummaryContent` what the summary
says about a container: a change to its image is told with both images, one to
its environment with both values of each variable that differs. `SummaryLines`
does the same for the other rules and for whatever no rule covers. What is said
of a container needs the container's own rules to be reached, which they are
exactly if no earlier container's bracketed name is a prefix of the path; names
without brackets never are.

The comment at the head of `Summarize` says that at most one insight covers a
change. `SummaryCounts` proves when: a change is listed once for each note of
the rule that claims it, so the comment is true exactly if no rule with several
notes claims anything, and only the rules of environments and of data can have
several. One environment is told once if variables only in A, variables only in
B and each variable that differs come to one at most; with two that differ, two
insights list the same change (`TwoVariablesTwoInsights`). What holds in any
case is one *claim* for each change.

**The cluster prober** (`backend/internal/cluster`). `StatusState` is the
status manager, `StatusRuns` its runs: one background loop, any number of
on-request probes, answers in any order or not at all.

**The metrics cache** (`backend/internal/db/metrics_cache.go`). A running total
and batches of 64 against a table that is summed and evicted one row at a time.

**Events, migrations and the search index** (`backend/internal/db`).
`EventStore` is the batched upsert and `EventBatches` compares it with storing
the events one call at a time; `EventTrim` is the deletion of the oldest ones,
which a batch may find due. `SchemaMigrations` is the stepwise migration;
`currentSchemaVersion` drops the error of a failed read and goes on with 0, so
the promises are stated for starts that could read the version, and a start
that could not takes the version back exactly if it gets some way but not as
far again (`VersionGoesBackIff`). `SearchPurge` is the paginated purge.

**Revision history** (`backend/internal/changes`). `TemplateDiff` flattens
templates and diffs them, `Revisions` sorts revisions and lists the entries. A
diff line writes an absent value as the empty text, so a value that *becomes*
empty cannot be replayed; the condition is stated exactly. Several values of
one template can share a path. Of list items the last one's value stays; of map
keys either one's can, as Go visits them in any order. `Flattens` is the
relation of a template to every map that some order of its keys leads to, and a
template has one flattened form exactly if no path can end with two texts
(`FlatIsUniqueIff`).

**Single sign-on tokens** (`backend/internal/cloud/aws_sso_tokens.go`).
`SsoTokens` ranks tokens and writes them, `SsoStore` is the token store with
its memoised scans and failure marks. The comment on `pickSSOToken` says that
among refreshable tokens the freshest registration wins; the code compares the
tokens' expiry (`PickIgnoresRegistrations`), so the comment is true exactly if
a token with the freshest registration also leads by expiry
(`FreshestIsPickedIff`). `SsoPortal` lets the resolves of
one portal take turns at its lock and proves that none of them asks the portal
again about a file whose refresh token it rejected, as long as every scan finds
the file unchanged; the marks made meanwhile are all made in those turns. The
marks are kept per file, not per portal: when two portals share a file, a
rejection that arrives late, for the file as it was before, makes the next scan
forget the newer mark, and the portal is asked again (`LateMarkForgets`).

**The backend log** (`frontend/public/backendLog.js`). `Redaction` is the
secret filter, `BackendLogs` the bounded log with its two files.

Go maps are visited in no fixed order, and the models choose an arbitrary
element in their place. Database calls, file operations and fetchers succeed
or fail nondeterministically. Times are integers.

## Model

| member | source | states |
|---|---|---|
| CacheObject.Cache.Get | backend/internal/cache/cache.go:281-289 | a value is returned exactly when the key is present and not past its expiry |
| CacheObject.Cache.JoinOrRegister | backend/internal/cache/cache.go:106-115 | joins exactly a registered fetch that is not superseded, otherwise registers a new one |
| CacheObject.Cache.StartRefresh | backend/internal/cache/cache.go:141-149 | a background refresh starts only if no fetch at all is registered |
| CacheObject.Cache.Store | backend/internal/cache/cache.go:131-137 | a superseded fetch stores nothing, any other replaces the entry |
| CacheObject.Cache.Finish | backend/internal/cache/cache.go:167-174 | the fetch leaves the register only if it is the one there, and its channel closes once |
| CacheObject.Cache.SupersedeLocked | backend/internal/cache/cache.go:194-200 | exactly the fetches registered under covered keys become superseded |
| CacheObject.Cache.Invalidate | backend/internal/cache/cache.go:211-238 | of the keys that the text reaches, entries inside their stale window are marked as expired, the others go, and fetches are superseded; nothing else changes |
| CacheObject.Cache.Clear | backend/internal/cache/cache.go:240-245 | everything goes and every running fetch is superseded |
| CacheObject.Cache.Delete | backend/internal/cache/cache.go:247-252 | the key's entry goes and its fetch is superseded |
| CacheObject.Cache.DeleteByPrefix | backend/internal/cache/cache.go:291-300 | the entries under the prefix go and their fetches are superseded |
| CacheObject.Cache.Set | backend/internal/cache/cache.go:254-259 | the entry is written and no fetch is superseded |
| CacheObject.Cache.Replace | backend/internal/cache/cache.go:264-279 | compare-and-set on the value, expired or not |
| CacheObject.Cache.Janitor | backend/internal/cache/cache.go:48-61 | exactly the entries past both expiry and stale window go |
| CacheState.ReachesText | backend/internal/cache/cache.go:211-228 | a text that ends in a star reaches every key that begins with what precedes the star, any other text just itself |
| CacheState.SwrEntryLives | backend/internal/cache/cache.go:176-179 | a stale-while-revalidate entry is fresh for its time to live and stale for the maximum after that |
| CacheState.PlainEntryLives | backend/internal/cache/cache.go:181-190 | a plain entry is served until its time to live is over, for ever without one, zero standing for the default |
| CacheSafety.ReachableInv | backend/internal/cache/cache.go:63-174 | the invariant of flights, entries, invalidations and calls holds in every reachable state of every interleaving |
| CacheTheorems.ReadsSeeInvalidations | backend/internal/cache/cache.go:63-68 | no Get or GetOrSet begun after an invalidation returned gives a value whose fetch started before it |
| CacheTheorems.WaitersJoinNewFetches | backend/internal/cache/cache.go:102-115 | a call never waits for a fetch registered before an invalidation that preceded the call |
| CacheTheorems.SwrSeesInvalidations | backend/internal/cache/cache.go:70-100 | GetOrSetSWR gives such a value only if the newer fetch it waited for failed, or if another invalidation overtook it between clock and read |
| CacheTheorems.FallbackStaysInWindow | backend/internal/cache/cache.go:87-94 | a fallback hands out the marked entry the call had read, after a failed fetch and inside the stale window |
| CacheTheorems.MarkedEntryServedIff | backend/internal/cache/cache.go:80-95 | a marked entry is served at once exactly when the call's clock reading is earlier than that of the invalidation that stamped it |
| CacheTheorems.MarksAreStamped | backend/internal/cache/cache.go:230-238 | every marked entry carries the stamp of a recorded invalidation of its key |
| CacheTheorems.SwrCanServeOldValue | backend/internal/cache/cache.go:78-86 | a reachable run in which an overtaken call serves the value of before an invalidation |
| CacheRuns.InvalidationReaches | backend/internal/cache/cache.go:211-238 | one step of the protocol marks or drops the entries of exactly the keys its text reaches and supersedes exactly their fetches |
| CacheRuns.LaterReadsAreNew | backend/internal/cache/cache.go:202-228 | over any run, a Get or GetOrSet begun after an invalidation or deletion that reaches its key never returns a value whose fetch was registered before |
| CacheRuns.LaterWaitersAreNew | backend/internal/cache/cache.go:102-115 | nor does any call begun after it wait for such a fetch |
| CacheRuns.LaterSwrReads | backend/internal/cache/cache.go:70-100 | GetOrSetSWR begun after it gives such a value only if the fetch it waited for failed, or if another invalidation overtook it |
| CacheRuns.RepliesAreReturned | backend/internal/cache/cache.go:63-137 | in every reachable state, a fetched value handed out by whatever way is what the fetcher of that key returned |
| CacheRuns.DecidesByClock | backend/internal/cache/cache.go:281-289 | Get and GetOrSet serve the entry they read exactly if it is not past its expiry |
| CacheRuns.SwrReadsByClock | backend/internal/cache/cache.go:78-100 | GetOrSetSWR serves as fresh, serves as stale, keeps to fall back to or forgets, by its own clock reading |
| CacheRuns.FetchStarts | backend/internal/cache/cache.go:106-115 | a call joins the registered fetch unless that is superseded, otherwise it starts one for its own key and times |
| CacheRuns.FetchStores | backend/internal/cache/cache.go:126-137 | what a fetch stores and for how long that is served |
| CacheRuns.AnswersByOutcome | backend/internal/cache/cache.go:87-94 | a waiter gets the value, or the marked entry, or the error; a panic goes to the caller that ran the fetcher |
| CacheTheorems.FlightDiscipline | backend/internal/cache/cache.go:102-174 | every running fetch is registered or superseded, at most one live fetch runs for a key, channels close exactly once |
| CacheTheorems.FinishRemovesOnlyItself | backend/internal/cache/cache.go:167-172 | leaving the register removes the fetch itself and no other |
| CacheTheorems.FetchesFinish | backend/internal/cache/cache.go:116-174 | a fetch is never stuck, panics included: a step of its own is always possible and each brings the close nearer |
| CacheTheorems.WaitersAreWoken | backend/internal/cache/cache.go:108-112 | a waiter can answer exactly when the channel it waits on is closed |
| CompareReport.ChangeList.DiffAt | backend/internal/compare/diff.go:29-95 | the loop appends exactly the lines of the structural diff, in order, below the given path |
| CompareValues.ChangesTell | backend/internal/compare/diff.go:29-95 | every change carries as A what document A has at its position and as B what B has there; only-in means that the other side has nothing, changed that both have something and differ |
| CompareValues.ReportedIff | backend/internal/compare/diff.go:29-95 | where two documents are compared, the report has a line at a position exactly if they differ there, and it has no other lines |
| CompareValues.LinesTell | backend/internal/compare/diff.go:29-95 | every line of a report has the path of a position and the two values there, in their order |
| CompareValues.CalledBy | backend/internal/compare/normalize.go:376-387 | list items are called by name, key, mount path or container port, the first that has a value |
| CompareValues.KeysAreListed | backend/internal/compare/diff.go:98-130 | four keys come first, status last, the others as in a dictionary |
| CompareReport.CollectNames | backend/internal/compare/diff.go:59-70 | names of the first list in its order, then the new ones of the second |
| KeyOrder.SortKeys | backend/internal/compare/diff.go:98-118 | keys in order of rank, then of name |
| KeyOrder.EnumerateIsExact | backend/internal/compare/diff.go:98-118 | the ordered listing has each key and is strictly increasing |
| CompareDrift.DriftIsDeclaredDiff | backend/internal/compare/normalize.go:325-374 | for aligned documents, comparing with the pruned object is the full comparison less the changes at undeclared map keys; aligned means that paired items of named lists keep their names, and that a list which only pruning gives names has every declared field as declared |
| CompareSatisfied.SatisfiesIff | backend/internal/compare/normalize.go:325-374 | the full comparison has no changes but undeclared ones exactly if every declared field is there as declared and no list has more items |
| CompareDrift.NoDriftIffSatisfied | backend/internal/compare/normalize.go:327-330 | for aligned documents there is no drift exactly if every declared field is as declared |
| CompareDrift.SameFieldsAlign | backend/internal/compare/normalize.go:376-387 | items identified by the same field, and by a scalar, keep their names |
| CompareDrift.UndeclaredIsAddition | backend/internal/compare/normalize.go:325-374 | for any two documents, each line that pruning is to hide is an addition |
| CompareDrift.RealDriftSurvives | backend/internal/compare/normalize.go:327-330 | for aligned documents, removals, changes and extra list items all show, and pruning makes no line up |
| CompareDriftExact.DriftIsExact | backend/internal/compare/normalize.go:325-374 | with text or integer identifiers the equation holds exactly for aligned documents, in both cases of alignment |
| CompareDriftExact.NoFalseDrift | backend/internal/compare/normalize.go:327-330 | with text or integer identifiers, an object that has every declared field as declared shows no drift, whatever else it has |
| CompareDriftExact.PermutedNamesHideDrift | backend/internal/compare/normalize.go:348-361 | two named live items with each other's declared keys show no drift, although neither is as declared |
| CompareDriftExact.DriftNeedsSameIdentity | backend/internal/compare/normalize.go:376-387 | an object whose list items are identified differently on the two sides, where the equation fails |
| CompareLaws.DiffIsSymmetric | backend/internal/compare/diff.go:29-95 | swapping the sides swaps the kinds and values of the same changes, up to order |
| CompareLaws.DistinctNames | backend/internal/compare/diff.go:59-74 | the names compared are distinct |
| CompareLaws.AllNamesOnce | backend/internal/compare/diff.go:59-74 | both directions compare the same names, each once |
| CompareCanon.EmptyIffSameCanon | backend/internal/compare/diff.go:29-95 | without null list items and with text or integer identifiers, no difference exactly when the canonical forms are equal |
| CompareCanon.NullsBreakTransitivity | backend/internal/compare/diff.go:30-40 | with a null list item, three lists of which the first equals the second and the second the third, but not the first the third |
| ComparePaths.SplitPath | backend/internal/compare/summary.go:92-120 | the scanning loop returns the parts of the splitting function |
| ComparePaths.SplitOfPath | backend/internal/compare/summary.go:92-120 | splitting a printed path gives back the texts of its segments, if keys and names have no brackets |
| CompareReport.DiffIsApart | backend/internal/compare/diff.go:47-90 | no two changes of a diff have positions of which one could print like the other |
| CompareReport.PathsAreDistinct | backend/internal/compare/diff.go:19-27 | no two lines of a report have the same path, if keys and names have no brackets |
| Summarizers.Summarizer.Claim | backend/internal/compare/summary.go:126-142 | marks exactly the unused changes under the prefixes and returns their paths in order |
| Summarizers.Summarizer.Add | backend/internal/compare/summary.go:144-150 | one insight with the claimed paths, and none when nothing is claimed |
| Summarizers.Summarizer.Scalar | backend/internal/compare/summary.go:156-163 | claims below the path only if some change is at that very path, with that change's values |
| Summarizers.Summarizer.Env | backend/internal/compare/summary.go:230-263 | one claim, shared by the insights for names only in A, only in B and each that differs |
| Summarizers.Summarizer.DataKeys | backend/internal/compare/summary.go:305-341 | nothing when the data agree, otherwise one claim shared by up to three insights |
| Summarizers.Summarizer.MapKeys | backend/internal/compare/summary.go:343-365 | claims the labels or annotations exactly when some key differs |
| Summarizers.Summarizer.Container | backend/internal/compare/summary.go:192-211 | a container on one side only is one claim, otherwise the settings in turn and then the rest of it |
| Summarizers.Summarizer.PodSpec | backend/internal/compare/summary.go:184-218 | all containers of both sides, each name once, then the pod's own settings |
| Summarizers.Summarizer.Leftovers | backend/internal/compare/summary.go:44-75 | what is left is grouped by section in the order first seen, and every change ends up used |
| Summarizers.Summarizer.Run | backend/internal/compare/summary.go:12-76 | ends with every change used and with the summary of the documents' rules |
| Summarizers.EnvMap | backend/internal/compare/summary.go:265-283 | each name has the value of its last entry, and a name without an entry has none |
| Summarizers.FindContainer | backend/internal/compare/summary.go:372-385 | the last object of that name, and null exactly if there is none |
| Summarizers.UnionNames | backend/internal/compare/summary.go:387-399 | exactly the names of both lists, each once, in order of first occurrence |
| SummaryContent.ImageIsTold | backend/internal/compare/summary.go:192-203 | between workloads of one kind, a change below the image of a container of both is listed by an image insight with both images, if names have no brackets |
| SummaryContent.EnvIsTold | backend/internal/compare/summary.go:230-262 | likewise each change to the environment is listed, for every variable that differs, with its two values |
| SummaryContent.EnvIsMentioned | backend/internal/compare/summary.go:250-259 | and without values if a variable is missing on one side or none differs |
| SummaryContent.SettingIsTold | backend/internal/compare/summary.go:192-211 | each part of a container is told under its own category, the image, environment and resources with their values, and all of a container that only one side has as one |
| SummaryLines.VariableIsTold | backend/internal/compare/summary.go:230-283 | a variable that differs is told with the texts of its last entries on both sides |
| SummaryLines.ContainerIsLast | backend/internal/compare/summary.go:372-385 | a container is the last object of its name in its list |
| SummaryContent.SettingClaimIff | backend/internal/compare/summary.go:184-203 | the change belongs to the container's own rule exactly if its path is under no earlier container of the list |
| SummaryContent.BracketsShadow | backend/internal/compare/summary.go:122-124 | a name that continues another behind a bracket and a dot has all its container's paths under the other |
| SummaryCounts.ListingIsNotes | backend/internal/compare/summary.go:9-76 | a change with a path of its own is listed by as many insights as the rule that claims it has notes, and by one if no rule does |
| SummaryCounts.AtMostOnceIff | backend/internal/compare/summary.go:9-11 | at most one insight covers each change exactly if no rule with several notes claims anything |
| SummaryCounts.SharedRulesDecide | backend/internal/compare/summary.go:12-76 | for any two documents only the rules of environments and data decide that |
| SummaryCounts.EnvListing | backend/internal/compare/summary.go:230-263 | a change to a container's environment is listed once for variables only in A, once for those only in B and once for each that differs, and at least once |
| SummaryCounts.DataListing | backend/internal/compare/summary.go:305-341 | a change to data is listed once for keys only in A, once for those only in B and once for values that differ, and at least once |
| SummaryCounts.TwoVariablesTwoInsights | backend/internal/compare/summary.go:260-262 | two pods with two differing variables, where two insights list each change to the environment |
| SummaryLines.LoneLeftoverIsTold | backend/internal/compare/summary.go:56-74 | a change that no rule covers and that is alone in its section is told with its own A and B |
| SummaryLines.LeftoversAreTold | backend/internal/compare/summary.go:56-74 | several such changes of one section are told together, without values |
| SummaryLines.SectionOfPath | backend/internal/compare/summary.go:84-90 | the section of a printed position is its first two segments |
| SummaryLines.KindIsTold | backend/internal/compare/summary.go:15-21 | different kinds are told with both, and of one kind the two API versions |
| SummaryLines.NameIsTold | backend/internal/compare/summary.go:165-170 | a change below the name is told with both names |
| SummaryLines.NamespaceIsTold | backend/internal/compare/summary.go:165-173 | a change below the namespace is told with both namespaces, a missing one as not set |
| SummaryLines.ReplicasAreTold | backend/internal/compare/summary.go:176-182 | a change of the replicas of two workloads of one kind is told with both numbers |
| SummaryLines.ServiceTypeIsTold | backend/internal/compare/summary.go:33-36 | a change of a Service's type is told with both types |
| SummaryLines.PodSettingIsTold | backend/internal/compare/summary.go:214-216 | changes to volumes and to what decides scheduling are told as such, without values |
| SummaryLines.ServicePartIsTold | backend/internal/compare/summary.go:33-36 | changes to a Service's ports and selector are told as such |
| SummaryLines.LabelsAreTold | backend/internal/compare/summary.go:343-365 | a change below the labels is told as such if any label is on one side only or has two values |
| SummaryLines.AnnotationsAreTold | backend/internal/compare/summary.go:343-365 | and a change below the annotations |
| SummaryLines.StatusIsTold | backend/internal/compare/summary.go:38-42 | a change of the status is told as such |
| SummaryCounts.DataIsTold | backend/internal/compare/summary.go:305-341 | a change to data is told as such if any key is on one side only or has two values |
| SummaryLines.PodsAreRead | backend/internal/compare/normalize.go:192-202 | where the pods of each kind of workload are, and under which path |
| SummaryLines.ServiceAccountIsTold | backend/internal/compare/summary.go:213-217 | a change of a pod's service account is told with both |
| SummaryRules.RulesSpeak | backend/internal/compare/summary.go:12-43 | whatever the documents, every rule that claims something has something to say, and just one thing unless it is one of environments or data |
| ClaimRules.FirstRuleTakes | backend/internal/compare/summary.go:126-142 | a change is claimed by the first rule whose prefixes its path is under |
| ClaimRules.EachChangeClaimedOnce | backend/internal/compare/summary.go:10-76 | every change is in exactly one claim or leftover group |
| ClaimRules.EachPathIsShown | backend/internal/compare/summary.go:10-76 | every change's path is listed by an insight |
| ClaimRules.EachInsightShowsOneClaim | backend/internal/compare/summary.go:144-150 | every insight lists the paths of one claim |
| Summarizers.SummaryIsComplete | backend/internal/compare/summary.go:10-76 | for the rules of any two documents: each change in exactly one claim, its path in some insight, and each insight with the paths of one claim |
| StatusState.StatusManager.Store | backend/internal/cluster/status_manager.go:94-103 | a healthy answer clears the backoff, an unhealthy one doubles it between the period and the cap |
| StatusState.StatusManager.BeginRequest | backend/internal/cluster/status_manager.go:202-206 | an on-request probe counts as a refresh and clears the backoff |
| StatusState.StatusManager.BeginFullProbe | backend/internal/cluster/status_manager.go:165-167 | a full-refresh probe counts as a refresh and keeps the backoff |
| StatusState.StatusManager.SelectNext | backend/internal/cluster/status_manager.go:105-143 | the first of the earliest-due clusters if it is due, none exactly when none is due, unlisted clusters forgotten |
| StatusState.StatusManager.ForgetGone | backend/internal/cluster/status_manager.go:131-137 | exactly the clusters with a status that are no longer listed are forgotten |
| StatusState.PickedIsEarliest | backend/internal/cluster/status_manager.go:122-130 | by the stored times: the first in the list of those that may be probed earliest, if it may be probed now |
| StatusState.ForgottenAreUnlisted | backend/internal/cluster/status_manager.go:131-137 | by the stored maps: unlisted clusters with a status lose everything, the others nothing |
| StatusRuns.ProbesAreSpaced | backend/internal/cluster/status_manager.go:105-148 | a background probe of a cluster starts at least the period plus the backoff waited out after every earlier probe of it, on-request and full-refresh probes included |
| StatusRuns.ProbesAreRecorded | backend/internal/cluster/status_manager.go:105-148 | each probe is recorded as it starts, with its time and the backoff in force |
| StatusRuns.AnswersAreHeard | backend/internal/cluster/status_manager.go:94-103 | an answer becomes the status, and clears the backoff or doubles it within its bounds |
| StatusRuns.BackoffSchedule | backend/internal/cluster/status_manager.go:11-16 | half a minute, one, two and four minutes, then five |
| StatusRuns.BackoffCountsFailures | backend/internal/cluster/status_manager.go:94-103 | the backoff is the documented function of the unhealthy answers since the last healthy one or request |
| StatusRuns.BackoffDoubles | backend/internal/cluster/status_manager.go:11-16 | that function starts at the period, doubles and is capped |
| StatusRuns.Fairness | backend/internal/cluster/status_manager.go:122-142 | while a due cluster waits, no other is background-probed twice, so fewer selections pass than there are clusters |
| MetricsStore.MetricsCache.Open | backend/internal/db/metrics_cache.go:42-51 | the running total starts as the table's sum |
| MetricsStore.MetricsCache.Get | backend/internal/db/metrics_cache.go:68-86 | the row's data, its age refreshed at most once an hour, an error if that write fails |
| MetricsStore.MetricsCache.Save | backend/internal/db/metrics_cache.go:93-154 | has the effect of summing the table and evicting one row at a time, and none at all if rolled back or oversized |
| MetricsStore.MetricsCache.MakeRoom | backend/internal/db/metrics_cache.go:117-136 | batches of 64 evict what single evictions would, every pass at least one row, and the total stays the sum |
| MetricsStore.SomethingToEvict | backend/internal/db/metrics_cache.go:122-125 | the loop never finds the table empty: while a row that fits by itself lacks room, there is an oldest row |
| MetricsStore.MetricsCache.EvictBatch | backend/internal/db/metrics_cache.go:126-135 | one batch deletes oldest rows until the new one fits, at least one |
| MetricsTable.EvictsShortestRun | backend/internal/db/metrics_cache.go:117-136 | the rows evicted are the shortest prefix in order of use that makes room |
| MetricsTable.EvictsLeastUsed | backend/internal/db/metrics_cache.go:117-136 | by the rows themselves: every row that goes was used before every row that stays, or at the same time with the smaller key |
| MetricsTable.EvictsNoMore | backend/internal/db/metrics_cache.go:117-136 | with the last row that went back in the table the new one would not fit |
| MetricsStore.SaveByRows | backend/internal/db/metrics_cache.go:93-154 | a save that commits and fits puts its row in, evicts only the least recently used others and no more than it must; any other changes nothing |
| MetricsStore.ReadRowOutlives | backend/internal/db/metrics_cache.go:68-86 | after a read, no save removes the read row and keeps one not used for an hour |
| MetricsTable.WithoutIsPrefix | backend/internal/db/metrics_cache.go:119 | what is left after n evictions is the order of use without its first n rows |
| MetricsStore.SaveByTotalIsSave | backend/internal/db/metrics_cache.go:117-152 | with a right total, a save that subtracts and adds sizes does what one that sums the table would, and leaves the total right |
| MetricsStore.TotalIsConserved | backend/internal/db/metrics_cache.go:42-152 | over any opens, closes, reads and saves, rolled back or not, the running total is the sum of the stored bytes |
| MetricsStore.SaveKeepsBudget | backend/internal/db/metrics_cache.go:88-153 | a committed save that fits leaves the sum within that call's budget and the new row in place |
| EventStore.EventTable.StoreEvents | backend/internal/db/events.go:98-178 | the batch's observable effect and the number of rows created, old rows with the time they had and new ones with the batch's, then the trim if one is due, or nothing if the transaction fails |
| EventTrim.Trim | backend/internal/db/events.go:153-164 | as many of the cluster's rows go as are over 10000, none of them newer than one that stays |
| EventTrim.TrimLeavesTheNewest | backend/internal/db/events.go:153-164 | at most 10000 rows of the cluster are left, all of them if there were no more, and the other clusters' rows are untouched |
| EventTrim.TrimDropsTheOldest | backend/internal/db/events.go:153-164 | by the times themselves: what a trim drops is no younger than what it keeps |
| EventStore.StoredRowsAre | backend/internal/db/events.go:98-151 | each delivered uid has one row afterwards, with the last delivery's body and the identity it had, or else the last delivery's |
| EventStore.CounterGrows | backend/internal/db/events.go:166-172 | the cluster's counter grows by the rows created, no other counter moves |
| EventStore.Dedup | backend/internal/db/events.go:105-119 | each uid's slot ends with its last delivery, the nameless ones are copied out |
| EventStore.Lookup | backend/internal/db/events.go:126-136 | looking up in chunks finds every stored uid with its row |
| EventStore.Apply | backend/internal/db/events.go:137-151 | stored events get the last body and keep their identity, the others become one new row each |
| EventBatches.BatchingIsUnobservable | backend/internal/db/events.go:98-178 | the same rows as one call for each event, exactly when every event not stored yet has one identity in its first and last delivery; the same counter in any case |
| EventBatches.LastDeliveryWins | backend/internal/db/events.go:98-119 | the last delivery's body is stored, in one row of the cluster |
| SchemaMigrations.Database.RunMigrations | backend/internal/db/migrations.go:40-71 | the missing steps in order up to the first failure, the version that of the last step recorded |
| SchemaMigrations.Database.CurrentVersion | backend/internal/db/migrations.go:30-34 | the recorded version, or 0 if it cannot be read |
| SchemaMigrations.EveryStepOnce | backend/internal/db/migrations.go:40-71 | over any starts the version never goes back and each step is recorded once, in order |
| SchemaMigrations.SuccessCompletes | backend/internal/db/migrations.go:40-71 | after a start that succeeds the schema is complete |
| SchemaMigrations.NothingLeftToRun | backend/internal/db/migrations.go:42-44 | a complete schema runs nothing |
| SchemaMigrations.ResumesAtTheFailure | backend/internal/db/migrations.go:55-69 | a failed start is taken up at the step that failed |
| SchemaMigrations.RerunsIffUnread | backend/internal/db/migrations.go:30-34 | a recorded step runs again exactly when the version could not be read |
| SchemaMigrations.VersionGoesBackIff | backend/internal/db/migrations.go:30-71 | a start takes the version back exactly if it could not read it and records at least one step but fewer than the version |
| SchemaMigrations.UnreadVersionGoesBack | backend/internal/db/migrations.go:30-71 | from every version above 1 some start does so |
| SearchPurge.SearchIndex.Purge | backend/internal/db/migrations.go:167-220 | exactly the rows of acceptable kind with the canonical id remain, every row surviving the first delete is looked at once, the count is the rows removed, and a run that fails has removed no acceptable row |
| SearchPurge.SearchIndex.Sweep | backend/internal/db/migrations.go:187-219 | the pagination ends although rows are deleted on the way, and looks at every row once in order of id |
| SearchPurge.SearchIndex.SweepPage | backend/internal/db/migrations.go:189-218 | one page moves the swept prefix on |
| SearchPurge.SelectPage | backend/internal/db/migrations.go:191-195 | the first rows after the last id, in order |
| SearchPurge.SweptIsAcceptable | backend/internal/db/migrations.go:164-177 | the first delete and the sweep together keep the acceptable rows |
| SearchPurge.AcceptableReads | backend/internal/db/migrations.go:164-231 | by the columns: kept rows are no kind definitions, have a capital in their kind, and their id is cluster, group, version, plural, namespace if any, and name, slashed |
| TemplateDiff.FlatMap.Flatten | backend/internal/changes/diff.go:21-58 | writes the fields of each object in some order and the items of each list in theirs, later values over earlier ones |
| TemplateDiff.FlattensWrites | backend/internal/changes/diff.go:21-58 | in any order, each path ends with one of the texts that can stay there, and other paths are left alone |
| TemplateDiff.CanStay | backend/internal/changes/diff.go:30-36 | each of these texts is left by some order of the keys |
| TemplateDiff.FlatIsUniqueIff | backend/internal/changes/diff.go:21-58 | the order of map keys does not show exactly if no path can end with either of two texts |
| TemplateDiff.LastItemStays | backend/internal/changes/diff.go:37-49 | two list items of one name flatten to one form, with the last one's text |
| TemplateDiff.CollidingPathsAreUnstable | backend/internal/changes/diff.go:30-36 | a template with more than one flattened form |
| TemplateDiff.DiffValues | backend/internal/changes/diff.go:69-101 | the diff of the two flattened forms, strictly sorted and without noise |
| TemplateDiff.DiffIsSorted | backend/internal/changes/diff.go:80-100 | strictly sorted by path, with exactly the paths that differ and are not noise |
| TemplateDiff.DiffReads | backend/internal/changes/diff.go:69-101 | each line has the old and the new text of a path that differs and is no noise |
| TemplateDiff.DiffCovers | backend/internal/changes/diff.go:80-100 | every path that differs and is no noise has a line |
| TemplateDiff.NoiseReads | backend/internal/changes/diff.go:12-19 | the four noisy paths and all below them |
| TemplateDiff.DiffReplays | backend/internal/changes/diff.go:69-101 | applied as a patch the diff gives the new form off the noisy paths, exactly when no value becomes empty |
| Revisions.SortRevisions | backend/internal/changes/workloads.go:116-123 | sorts in place into the stable order |
| Revisions.StableSortIsStable | backend/internal/changes/workloads.go:116-123 | in order of number and time, those of one rank as they came |
| Revisions.SortedReads | backend/internal/changes/workloads.go:116-123 | by number, and within a number by creation |
| Revisions.RevisionEntries | backend/internal/changes/workloads.go:128-166 | one entry for each revision, each but the oldest with the diff from the one before |
| Revisions.NewestIsCurrent | backend/internal/changes/workloads.go:129-131 | if the running revision is unknown the newest number is marked current, and no other |
| Revisions.ReplayAt | backend/internal/changes/workloads.go:147-156 | what folding the diffs gives at each path |
| Revisions.ReplayIsExact | backend/internal/changes/workloads.go:147-156 | folding the diffs gives the newest form exactly when no value became empty on the way |
| Revisions.HistoryReplays | backend/internal/changes/workloads.go:128-166 | so do the entries of a history whose inner templates each have one flattened form |
| SsoTokens.PickToken | backend/internal/cloud/aws_sso_tokens.go:165-197 | the first token of the stable order |
| SsoTokens.PickIsUnique | backend/internal/cloud/aws_sso_tokens.go:185-195 | no other position qualifies |
| SsoTokens.PickIsBest | backend/internal/cloud/aws_sso_tokens.go:165-194 | valid before refreshable before the rest, then the latest expiry, then Kanivet's own file |
| SsoTokens.PickReads | backend/internal/cloud/aws_sso_tokens.go:165-197 | by the fields: an unexpired token if there is one, else a renewable one, and of its class none that lasts longer is passed over |
| SsoTokens.PickIgnoresRegistrations | backend/internal/cloud/aws_sso_tokens.go:165-194 | the pick stays the same under any registrations that leave the same tokens refreshable |
| SsoTokens.FreshestIsPickedIff | backend/internal/cloud/aws_sso_tokens.go:165-194 | with no valid token, the pick has the freshest registration exactly if a token that has it leads the refreshable ones by expiry, origin and place |
| SsoTokens.ShorterRegistrationCanWin | backend/internal/cloud/aws_sso_tokens.go:165-194 | a refreshable token picked over one with a fresher registration |
| SsoTokens.TokensForUrl | backend/internal/cloud/aws_sso_tokens.go:154-163 | the tokens of the portal, in order |
| SsoTokens.TokenFiles.WriteToKeys | backend/internal/cloud/aws_sso_tokens.go:354-375 | never over a token valid for longer, nothing else touched, and on success every key is served |
| SsoStore.TokenStore.MarkRefreshFailed | backend/internal/cloud/aws_sso_tokens.go:403-410 | pins the mark to the file's modification time |
| SsoStore.TokenStore.ApplyFailures | backend/internal/cloud/aws_sso_tokens.go:412-434 | annotates exactly the files still as they were and forgets the other marks |
| SsoStore.TokenStore.Tokens | backend/internal/cloud/aws_sso_tokens.go:443-456 | the memo while it is younger than 750 ms, otherwise one new annotated scan |
| SsoStore.TokenStore.Best | backend/internal/cloud/aws_sso_tokens.go:477-480 | the picked token of the portal among those of the memo |
| SsoStore.TokenStore.Resolve | backend/internal/cloud/aws_sso_tokens.go:482-525 | a token valid at the clock reading, a fresh refresh, or sign-in required, and exactly when which; the portal is asked only for the best token of a scan made after the call's own invalidation, and a rejection is marked |
| SsoStore.MarkSurvivesIff | backend/internal/cloud/aws_sso_tokens.go:386-434 | a mark outlives a step exactly when the file is still listed unchanged and no other mark replaces it |
| SsoStore.VisitReads | backend/internal/cloud/aws_sso_tokens.go:490-525 | the portal is asked exactly if the picked token ends within five minutes and is renewable; its answer then decides, and otherwise the token's own expiry |
| SsoPortal.PortalNeverRetries | backend/internal/cloud/aws_sso_tokens.go:458-525 | over any resolves that take turns at one portal's lock, none asks the portal about a file after a rejection while every scan finds the file unchanged, if the file's marks are all made in these turns |
| SsoPortal.ResolveInTurn | backend/internal/cloud/aws_sso_tokens.go:482-525 | a resolve adds a turn to those before it, and all marks are still made in turns |
| SsoStore.NoRetry | backend/internal/cloud/aws_sso_tokens.go:482-525 | however the steps of several portals interleave, no resolve that locks after a rejection asks about that file while it stays unchanged, if no mark for another state of the file is made meanwhile |
| SsoStore.ScanShowsIff | backend/internal/cloud/aws_sso_tokens.go:403-434 | while scans find the file unchanged, one shows a rejection exactly if the last mark before it names the state it finds |
| SsoStore.RetriesIff | backend/internal/cloud/aws_sso_tokens.go:482-525 | whatever else is marked, a picked token of a rejected, unchanged file carries no rejection exactly if the last mark before its scan names another state, and only then is the portal asked |
| SsoPortal.LateMarkForgets | backend/internal/cloud/aws_sso_tokens.go:403-428 | a run of two portals sharing a file in which a late rejection of its earlier state has the second portal asked again |
| Redaction.RedactConcat | frontend/public/backendLog.js:13 | redacting distributes over line ends |
| Redaction.SecretsAreGone | frontend/public/backendLog.js:11-13 | in the result every mark is followed by the placeholder alone |
| Redaction.WholeSecretGoes | frontend/public/backendLog.js:13 | the whole secret behind the word, up to a space, quote or ampersand, gives way to the placeholder |
| Redaction.OtherTextStays | frontend/public/backendLog.js:13 | where no word with a secret begins the text stays as it is |
| Redaction.RedactTwice | frontend/public/backendLog.js:13 | redacting twice changes nothing more |
| BackendLogs.BackendLog.Append | frontend/public/backendLog.js:31-52 | the redacted piece goes at the end of the current file, which is moved aside first exactly if the piece has no room, or the log has failed for good; both files stay bounded unless a piece alone is too large |
| BackendLogs.BackendLog.Rotate | frontend/public/backendLog.js:40-46 | the current file replaces the previous one, and nothing else is lost at whichever step it fails |
| BackendLogs.BackendLog.Write | frontend/public/backendLog.js:57-68 | complete lines go on, the rest is held back up to the limit |
| BackendLogs.BackendLog.Close | frontend/public/backendLog.js:70-78 | an unfinished line is ended and the file closed |
| BackendLogs.WrittenIsRedact | frontend/public/backendLog.js:31-39 | redacting piece by piece is redacting the whole |
| BackendLogs.TextIsInputIffNoCut | frontend/public/backendLog.js:57-68 | what was handed on and what is pending are the input exactly when no cut was forced |
| BackendLogs.ChunksDoNotMatter | frontend/public/backendLog.js:56-78 | when no cut is forced, the bytes appended by the end of close are the redacted input with its last line ended, however it was split |
| BackendLogs.ShortLinesAreNeverCut | frontend/public/backendLog.js:7-9 | an input without a stretch longer than the limit is never cut, however it is split |
| BackendLogs.LongLinesCanBeCut | frontend/public/backendLog.js:57-68 | any other input is cut under some splitting |
| BackendLogs.KeepLog | frontend/public/backendLog.js:56-78 | from opening to close: without a refusal or a cut the redacted input is appended, and always the files are the end of what was there and what was appended, within the bound and without secrets |
| BackendLogs.WrittenIsClean | frontend/public/backendLog.js:11-13 | every mark that reached the file has the placeholder behind it |

How to read the class contracts: `Valid()` of `BackendLogs.BackendLog` says that
the two files end whatever was there at the start plus whatever was appended,
and that each is within the bound; `Valid()` of `SsoStore.TokenStore` ties the
store to the steps it has taken, which `NoRetry` is about; `Valid()` of
`Summarizers.Summarizer` ties the used marks and the insights to the rules
applied so far.

## Left out

- CacheTheorems.ReadsSeeInvalidations: values put in by `Set` and `Replace` are not covered, as neither supersedes a running fetch; both are steps of the protocol with values of the caller.
- CacheTheorems.SwrSeesInvalidations: states the documented promise with the one exception that the code has.
- CompareDriftExact.DriftIsExact: that the condition is also necessary is proved where whatever could identify a list item is null, text or an integer; that it is sufficient is proved without this.
- CompareCanon.EmptyIffSameCanon: numbers are exact, so the rounding of integers beyond 2^53 to float64 is not modelled.
- ComparePaths.SplitOfPath: `strconv.Quote` is modelled for printable and ASCII characters; its escapes for other unprintable characters are not.
- StatusRuns.Fairness: for a fixed list of clusters, none of them unnamed (the code never targets an unnamed one), and a waiting cluster that no answer finds unhealthy meanwhile.
- EventStore.EventTable.StoreEvents: that a trim falls due at most once a minute is not modelled, any batch that creates rows may find one due; row ids are not modelled.
- EventBatches.BatchingIsUnobservable: compares what is stored before any trim.
- SummaryContent.ImageIsTold: for containers whose names have no brackets; `SettingClaimIff` says when it holds for the others.
- SearchPurge.SearchIndex.Purge: the table of irregular plurals of `PluralizeKind` is a parameter.
- Revisions.RevisionEntries: titles, summaries, categories and YAML snapshots are not modelled.
- BackendLogs.BackendLog.Append: a write is all or nothing, so short writes of the file system are not modelled, and a character has one encoded length, so lone surrogates and characters cut between chunks are not modelled.
- SsoStore.TokenStore.Resolve: one call with no other inside it; the portal's lock and steps of other callers between its own are in `SsoPortal.PortalNeverRetries` and `SsoStore.NoRetry`, as runs of steps. The exchange with the portal is nondeterministic and what it writes to disk shows only through later scans.
- Titles of insights, and the text of the resources line and of rendered values: parameters or dropped.
- The 240-character truncation of `render`: the report keeps values whole.
- The error values that accompany a failed cache fetch, and logging throughout.
- Stripping of defaults, secret hashing and normalisation in `compare/normalize.go`: straight-line tables.
- Category classification of template diffs in `changes/diff.go`.
- Parsing of AWS configuration files, cache keys and client registrations in `aws_sso_tokens.go`.
- SQL, transactions and gorm beyond all-or-nothing tables; VACUUM and pragmas.
- HTTP handlers, websockets, Kubernetes and cloud clients, and the Electron windows: input and output with little logic.
- Navigation, tabs, window state, cluster groups and aliases: they would only add easy members.
