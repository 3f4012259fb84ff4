# A Dafny model of agent-tasks

agent-tasks is a task tracker for humans and coding agents: a backend, an MCP
server that agents talk to, a bridge with a token store, and a CLI. This project
models the parts of it that carry real invariants and proves them in Dafny 4.11.
`dafny verify dfyconfig.toml` checks the whole project.

| part | modules | what is modelled |
|---|---|---|
| error budget | `Utf16`, `JsonText`, `DetailClamp`, `ErrorBudget`, `ErrorGuarantees`, `WireBounds`, `BackendErrors`, `NestedCounts`, `CatalogErrors`, `ForbiddenErrors`, `AdvanceErrors` | how the MCP server turns any backend body into an error of at most 1200 characters on the wire, and where it does not |
| duplicate keys | `JsonSyntax`, `DuplicateKeys` | the token loop that refuses a JSON text with a repeated key, against the syntax of RFC 8259 |
| spec sections | `Trimming`, `SpecSections` | the line scan that reads fields out of a markdown description with code fences |
| confidence score | `Confidence`, `ConfidenceScorer`, `ConfidenceProperties` | score, caps, findings and the two merges of the readiness scorer |
| slug cache | `SlugCache` | the client's cache with one invalidate-and-retry, for calls that interleave at every await |
| signal polling | `SignalsPoll` | pages over a queue that is acknowledged and appended to |
| rate limiter | `RateLimit`, `ClientAddress` | fixed windows, the sweep, and the address a client is counted under |
| batch creation | `BatchCreate` | one retried transaction an item, over a store that others write too |
| prefix search | `PrefixSearch`, `MovingPool` | bounded paging for a task id prefix, with a retry that drops unknown statuses, over a pool that stands still and over one that changes |
| token store | `TokenStore` | a keychain that may fail on any call, with a file behind it |
| LIKE escaping | `LikePattern` | escaping against the semantics of LIKE (PostgreSQL manual, section 9.7.1) |

`Basics` holds what they share. Strings that are measured are sequences of UTF-16 code units. Servers, databases,
keychains and clocks are parameters that answer anything, and several of them
change between the steps of a run, so each property holds for every run. Code that
the repository writes as loops over changing variables is a method with a loop,
proved against a function; the lemmas are about that function.

## What does not hold

The code is kept as it is. Each point has a lemma with a concrete input, beside the
one that says what does hold.

- `mcp-server/src/errors.ts:83-101` and `1626-1631` say that every catalog entry fits 1200
  characters. The entry for a missing github scope puts backend text into its recipe: a
  message `Token missing scope: github:` followed by 177 characters U+0001 gives an error
  of 1256 characters under the overflow code (`ForbiddenErrors.ForbiddenCanOverflow`).
  It overflows exactly when the escapes in the first 184 code points of the scopes add
  more than 841 characters (`ForbiddenErrors.ScopesOverflow`), so never for printable ones.
- `mcp-server/src/errors.ts:1444-1461` says that a second clamp must not derive a true
  count from an object that was shrunk before. Only the markers on top of a detail are set
  aside for it. A 400 whose body has twenty keys under its one key, each with a text of
  sixty plain characters, is degraded to a detail that says there were thirteen
  (`NestedCounts.NestedCountMisreported`). After both clamps the count of a nested object
  is true exactly when it had at most twelve keys, or thirteen and none of the first
  twelve is named `totalKeys` (`NestedCounts.NestedCount`, and
  `NestedCounts.NestedCountReported` for what the caller reads). The count on top always
  survives (`NestedCounts.KeyCountSurvives`).
- `totalChoices` of a refused advance is a true count that degrading can lose, since it is
  not one of the four markers (`AdvanceErrors.ChoicesCountCanBeLost`). It survives exactly
  when nothing is degraded, or the harder clamp is enough and at most one of `from`,
  `requested` and `finishTarget` stands in front (`AdvanceErrors.ChoicesCountSurvives`).
- `backend/src/lib/confidence.ts:676-681` says that deleting text must never raise the
  score. It can: the description "fix improve simple" has three vague terms and no anchor,
  which caps a task at 75 that scores at least 79 on its template alone
  (`ConfidenceProperties.DeletingCanRaise`, for every scorer that finds just that in it).
  `ConfidenceProperties.DeletingDescription` states exactly when, and that the
  raw score never rises.
- The binary search of `mcp-server/src/errors.ts:1516-1532` needs larger clamps to cost
  more. For a message of one or two code points they need not, and the search can
  drop a message that fits (`CatalogErrors.SearchCanMiss`). `enforceErrorBudget`
  never calls it on such an error (`ErrorGuarantees.SearchIsExactHere`).
- The fixed windows let through up to `2 * max - 1` requests in an interval as long as
  a window. For every maximum and every window of at least two milliseconds that bound is
  reached (`RateLimit.TwiceLessOneIsReached`).
- A unique prefix match is the only one of the part scanned, as `cli/src/api.ts:397-403`
  describes, and not of all: an older match on a page never fetched goes unseen
  (`PrefixSearch.UniqueMayHideAnOlderMatch`). It is the only one of the pool exactly when
  the pages behind its own hold none (`PrefixSearch.UniqueInPool`).
- A batch reports a repeated externalRef as skipped even when the item before it
  failed, so that no task carries it (`BatchCreate.SkippedRefMayBeMissing`). A ref is
  missing after a batch exactly when it was free before and no try of its first item got
  its row into the database (`BatchCreate.MissingExactly`).
- A login that falls back to the file because the keychain is down once leaves the
  old keychain token in place, and later reads return it
  (`TokenStore.OldKeychainTokenResurfaces`).

## Model

| member | source | states |
|---|---|---|
| DetailClamp.ClampCodePoints | mcp-server/src/errors.ts:274-286 | A clamp keeps the leading code points and the marker, read back as the same code points: no surrogate pair is split. |
| DetailClamp.ClampKeepsWellFormed | mcp-server/src/errors.ts:274-286 | A clamp of a well-formed text is well formed, with at most the budget of code points (three when the budget is smaller than the marker). |
| DetailClamp.FreeSuffix | mcp-server/src/errors.ts:1391-1393 | The counting loop ends, by the pigeonhole principle, with the least suffix whose name is free. |
| DetailClamp.Out.SetClampedKey | mcp-server/src/errors.ts:1386-1394 | A key is added under its own name, or under the least free `~n` variant; nothing in the object changes. |
| DetailClamp.FreshName | mcp-server/src/errors.ts:1386-1394 | The name given to a property is never one that is taken, inherited names such as `toString` included. |
| DetailClamp.ClampDetailValue | mcp-server/src/errors.ts:1407-1427 | The recursive clamp with its loops computes the specified value, for any JSON tree. |
| DetailClamp.ClampObject | mcp-server/src/errors.ts:1416-1423 | The object that is filled key by key equals the specified list of properties, count marker included. |
| DetailClamp.ClampBounds | mcp-server/src/errors.ts:1407-1427 | Any JSON tree becomes one of bounded depth, array length, key count and text length, with distinct keys. |
| DetailClamp.NothingOverwritten | mcp-server/src/errors.ts:1386-1394 | One property for each source entry kept, in order, each with its own value, even when clamped names collide. |
| DetailClamp.EntriesSurvive | mcp-server/src/errors.ts:1418-1423 | Exactly min(entries, limit) data entries survive, except that the marker replaces a data entry literally named totalKeys, and only such an entry. |
| ErrorBudget.WireSplits | mcp-server/src/errors.ts:1486-1491 | The wire size is the size with an empty message plus the message's own escaped cost. |
| ErrorBudget.ClampCostMonotone | mcp-server/src/errors.ts:1504-1514 | A larger clamp budget never costs less on the wire, except where a text of one or two code points replaces the marker. |
| ErrorBudget.LongestFit | mcp-server/src/errors.ts:1516-1532 | The largest clamp budget that fits, or none: the reference the search is measured by. |
| ErrorBudget.TrimMessageForBudget | mcp-server/src/errors.ts:1516-1532 | The binary search gives the longest clamp that fits, exactly when the message is not one of one or two code points that fits although the marker does not; in that case it drops the message. |
| ErrorGuarantees.BudgetHolds | mcp-server/src/errors.ts:1570-1640 | Every error fits 1200 characters under its own code, or carries the overflow code; the latter exactly when no stage fits, even with the detail minimized and an empty message. |
| ErrorGuarantees.OverflowWithoutDetail | mcp-server/src/errors.ts:1570-1640 | Without a detail, the overflow code appears exactly when code, recipe and verbs exceed the limit alone. |
| ErrorGuarantees.SearchIsExactHere | mcp-server/src/errors.ts:1616-1624 | The search's bad case cannot occur for an error over budget, so `enforceErrorBudget` never meets it. |
| ErrorGuarantees.DegradeInStages | mcp-server/src/errors.ts:1570-1640 | The stages with the binary search in place compute the specified result. |
| ErrorGuarantees.PartsKept | mcp-server/src/errors.ts:1570-1640 | Recipe and verbs stay whole, a detail is neither invented nor dropped, the message is a clamp of itself or empty, and stays well formed. |
| ErrorGuarantees.MessageIsLongest | mcp-server/src/errors.ts:1516-1532 | A shortened message costs at least as much as every other clamp of it that fits. |
| ErrorGuarantees.ReclampKeepsMarker | mcp-server/src/errors.ts:1462-1478 | The harder clamp leaves every numeric total marker among the detail's own entries at its original value. |
| ErrorGuarantees.SummaryKeepsMarker | mcp-server/src/errors.ts:1594-1614 | The summary that replaces a detail carries every numeric total marker among its own entries. |
| ErrorGuarantees.MarkersSurvive | mcp-server/src/errors.ts:1453-1478 | A number under one of the four marker names on top of a detail is the same number on top of the detail the caller gets, through every stage. |
| WireBounds.FloorAtMost | mcp-server/src/errors.ts:1626-1639 | The part that cannot be cut is at most 500 characters plus the cost of code and recipe and a fixed amount for each verb, when the detail's numbers are of JSON size. |
| WireBounds.BareSize | mcp-server/src/errors.ts:352-354 | An error without detail and verbs is exactly 110 characters longer than code, message and recipe cost. |
| BackendErrors.DegradeFits | mcp-server/src/errors.ts:1816-1833 | For every status, message and body, the degraded error fits 1200 characters under its own code. |
| BackendErrors.UsableWhenAnyIs | mcp-server/src/errors.ts:1784-1806 | Issues are used exactly when some issue says something; empty summaries never push out a telling one. |
| BackendErrors.IssuesDetailKeepsCount | mcp-server/src/errors.ts:1784-1806 | The clamped issue detail has two distinct keys and the number of issues the body listed. |
| BackendErrors.IssueCountSurvives | mcp-server/src/errors.ts:1784-1833 | However many issues the body listed and whatever else is cut, totalIssues reaches the caller as their number. |
| NestedCounts.KeyCountSurvives | mcp-server/src/errors.ts:1438-1442 | A generic detail whose source had more than twelve keys tells the caller their number, however much else is cut. |
| NestedCounts.NestedCount | mcp-server/src/errors.ts:1407-1427 | After both clamps a nested object of more than three keys carries the size the first clamp left it; that is its own size exactly when it had at most twelve keys, or thirteen and none of the first twelve is named totalKeys. An object of at most three keys loses none. |
| NestedCounts.SourceEntryKept | mcp-server/src/errors.ts:1462-1478 | The first three data entries of a clamped detail are found again after the harder clamp, each with its own value clamped twice. |
| NestedCounts.NestedCountReported | mcp-server/src/errors.ts:1462-1478 | When the harder clamp is the stage that makes an error fit, the caller reads that size at every nested object, down to the depth bound, on a path of kept places under a key that is no marker. |
| NestedCounts.NestedCountMisreported | mcp-server/src/errors.ts:1444-1461 | For every plain text of sixty characters: a body of twenty such texts under one key whose count reaches the caller as thirteen. |
| CatalogErrors.CatalogFits | mcp-server/src/errors.ts:288-314 | Any entry whose code, clamped recipe and verbs together cost at most 700 fits under its own code, whatever its message and detail. |
| CatalogErrors.PlainRecipeFits | mcp-server/src/errors.ts:288-314 | So does every entry with a plain recipe, at most six verbs and a code of at most 150. |
| ForbiddenErrors.BareOverflow | mcp-server/src/errors.ts:1570-1640 | An error without detail and verbs has the overflow code exactly when code and clamped recipe leave no room beside the 110 characters of the envelope. |
| ForbiddenErrors.ScopesOverflow | mcp-server/src/errors.ts:1022-1070 | For every body that names a missing github scope: overflow exactly when the escapes in the first 184 code points of the scopes add more than 841 characters, and a fitting error under its own code otherwise. |
| ForbiddenErrors.PrintableScopesFit | mcp-server/src/errors.ts:1059-1070 | Scopes without control characters and unpaired surrogates always fit, those outside ASCII included. |
| ForbiddenErrors.ForbiddenCanOverflow | mcp-server/src/errors.ts:1059-1070 | A body whose error has 1256 characters, under the overflow code. |
| CatalogErrors.SearchCanMiss | mcp-server/src/errors.ts:1516-1532 | An error exists whose one-letter message fits but is dropped by the search. |
| CatalogErrors.FailedCountSurvives | mcp-server/src/errors.ts:621-686 | totalFailed reaches the caller as the number of failed gates, zero when the body lists none; a null among them is the one case that throws. |
| CatalogErrors.MissingCountSurvives | mcp-server/src/errors.ts:1217-1245 | totalMissing reaches the caller as the number of missing fields, zero when the body lists none. |
| AdvanceErrors.ChoicesCountSurvives | mcp-server/src/errors.ts:860-882 | totalChoices reaches the caller as the number of choices exactly when nothing is degraded, or the harder clamp is enough and the detail has at most three entries; otherwise it is gone. |
| AdvanceErrors.ChoicesCountCanBeLost | mcp-server/src/errors.ts:860-882 | With a message of 300 control characters it is gone, whatever the body holds. |
| DuplicateKeys.LexValue | backend/src/config/grounding-runtime.ts:55 | The tokens matched in a printed JSON tree are the tree's own structural characters and literals, for every spelling and white space. |
| DuplicateKeys.UnescapeBody | backend/src/config/grounding-runtime.ts:65 | Parsing a literal gives the text its escapes stand for, so that two spellings of a key are one key. |
| DuplicateKeys.RunValue | backend/src/config/grounding-runtime.ts:57-69 | Over a value's tokens the loop rejects exactly a bad value, and otherwise leaves its stack as it was. |
| DuplicateKeys.BadMembersMeaning | backend/src/config/grounding-runtime.ts:63-68 | Seeing names one by one finds exactly a name that repeats, or a bad member. |
| DuplicateKeys.CheckIsExact | backend/src/config/grounding-runtime.ts:54-70 | A valid JSON text is rejected exactly when some object in it has two members of equal unescaped names, or it nests deeper than 16. |
| DuplicateKeys.RejectDuplicateKeys | backend/src/config/grounding-runtime.ts:54-70 | The indexed loop with its stack of key sets decides just that. |
| SpecSections.ExtractSpecSections | backend/src/lib/confidence.ts:299-331 | The scan returns, for each of the nine fields that some unfenced recognised heading with a non-empty body fills, the trimmed body of the first such heading, and no other of these fields. |
| SpecSections.SectionEnd | backend/src/lib/confidence.ts:318-322 | A section ends at the first unfenced heading of any kind after its own, or at the end. |
| SpecSections.SectionsUnique | backend/src/lib/confidence.ts:299-331 | That account determines the result completely. |
| SpecSections.UnclosedFenceSwallows | backend/src/lib/confidence.ts:292-296 | After a fence that nothing closes, no heading counts. |
| SpecSections.AppendingKeepsFields | backend/src/lib/confidence.ts:299-331 | Appending lines removes no field, and the old text of each stays a prefix of the new. |
| SpecSections.LinesAppend | backend/src/lib/confidence.ts:311 | Text appended after a line break only appends lines, unless the description ended in a bare carriage return. |
| ConfidenceScorer.CalculateConfidence | backend/src/lib/confidence.ts:1486-1657 | The scorer with its loops and in-place merges computes the specified report. |
| ConfidenceScorer.AddPoints | backend/src/lib/confidence.ts:1555-1566 | The running sum is the fixed-denominator score of what is present. |
| ConfidenceProperties.EarnedWithin | backend/src/lib/confidence.ts:1552-1568 | The weights sum to 100: the sum lies in 0 to 100 before it is kept within these bounds, and is 100 exactly for a task that has everything. |
| ConfidenceScorer.CollectMissing | backend/src/lib/confidence.ts:1570-1580 | The missing fields, each once, in surfacing order. |
| ConfidenceScorer.IndexByCode | backend/src/lib/confidence.ts:1592 | The index by code gives every finding's place. |
| ConfidenceScorer.MergeCapFindings | backend/src/lib/confidence.ts:1592-1603 | The first merge adds a new code or extends the entry that is there, and keeps the index right. |
| ConfidenceScorer.EscalateFindings | backend/src/lib/confidence.ts:1624-1632 | The second merge raises the entry that is there to blocking or adds a new code. |
| ConfidenceScorer.BuildDistinct | backend/src/lib/confidence.ts:583-643 | The rule-driven findings have pairwise distinct codes. |
| ConfidenceProperties.FindingsStayDistinct | backend/src/lib/confidence.ts:1587-1632 | Through both merges, for any tables: codes stay distinct, and no entry is lost, reordered or lowered in severity. |
| ConfidenceProperties.CapsSurface | backend/src/lib/confidence.ts:1585-1603 | Every cap that applies can be read off the final findings with its ceiling. |
| ConfidenceProperties.BlockingIsKeystone | backend/src/lib/confidence.ts:1549-1647 | `blocking` holds exactly when there are neither acceptance criteria nor a verification path, and then the score is at most 55. |
| ConfidenceProperties.ShippedTablesSpareAgentPrompt | backend/src/lib/confidence.ts:865-1127 | No type table requires the agent prompt, which is what the previous row needs of the tables. |
| ConfidenceProperties.FillingNeverLowers | backend/src/lib/confidence.ts:1526-1585 | Filling any field but goal and context never lowers the final score. |
| ConfidenceProperties.DeletingDescription | backend/src/lib/confidence.ts:661-774 | Deleting the description never raises the raw score; it raises the final score exactly when it escapes the ambiguity cap with title, criteria and constraints in the template, and then by at most five points. |
| ConfidenceProperties.DeletingCanRaise | backend/src/lib/confidence.ts:676-681 | A task that scores higher without its description, for every lawful scorer that finds three vague terms and no anchor in "fix improve simple" and rates its goal and context at 0.6 or more. |
| ConfidenceProperties.RichTemplateRaises | backend/src/lib/confidence.ts:676-681 | The same for every ambiguous description in front of this template. |
| ConfidenceProperties.SharpRaises | backend/src/lib/confidence.ts:676-681 | A scorer that meets these assumptions, lawful by `SharpIsLawful`. |
| ConfidenceProperties.TemplateIndependent | backend/src/lib/confidence.ts:1552-1555 | The project's template changes the completeness subscore and nothing else of the report. |
| ConfidenceProperties.TaskTypeIndependent | backend/src/lib/confidence.ts:1605-1632 | The type of a task changes neither score, missing fields, subscores nor blocking; it only raises or adds findings. |
| ConfidenceProperties.VerificationEntryIsInert | backend/src/lib/confidence.ts:804-843 | Adding a missing_acceptance_criteria entry keyed on the verification signal anywhere in any type table changes no report. |
| SlugCache.AgentTasksClient.FetchAndCacheProjectSlug | mcp-server/src/client.ts:159-175 | A lookup stores a found id for one TTL from its arrival and changes nothing else. |
| SlugCache.AgentTasksClient.WithResolvedProjectSlug | mcp-server/src/client.ts:215-237 | The method's outcome and the cache it leaves, for every answer of the server. |
| SlugCache.CacheIsInvisible | mcp-server/src/client.ts:177-214 | A call returns what a client without a cache would from the same lookup at the time of the call's last operation, but for three exceptions, in which it returns the served id's own reply: a stale id still answers; the served id is not refused and no lookup is made that would have failed; the confirming lookup fails. |
| SlugCache.EveryRunIsSound | mcp-server/src/client.ts:145-237 | In every run of interleaved calls each cached entry is an answer of the server, each served id was answered less than one TTL before, and each call looks up at most once, performs at most twice and succeeds at most once. |
| SlugCache.FinishedCallsAgree | mcp-server/src/client.ts:145-237 | In every such run a finished call agrees with the uncached client but for the three exceptions. |
| SlugCache.SoloRunIsTheMethod | mcp-server/src/client.ts:215-237 | The steps of one call run back to back are the method. |
| SignalsPoll.CursorAdvances | mcp-server/src/read.ts:426-448 | The cursor of a truncated page leads to exactly where that page ended. |
| SignalsPoll.ChainIsFetch | mcp-server/src/read.ts:426-448 | On a stable backlog the chained pages end and concatenate to exactly the fetched list. |
| SignalsPoll.CeilingIsFlagged | mcp-server/src/read.ts:444-446 | Pending signals outside the fetch always raise the flag; no flag means the fetch was the whole queue. |
| SignalsPoll.DrainIsComplete | mcp-server/src/read.ts:405-411 | A caller that heeds the flags gets every pending signal once, oldest first, whatever the size of the backlog. |
| SignalsPoll.NothingSkipped | mcp-server/src/read.ts:431-436 | Whatever a page starts after was delivered before. |
| SignalsPoll.NoRunSkips | mcp-server/src/read.ts:426-448 | Over every run of polls, acknowledgements of delivered signals and arrivals, every pending signal at or before a cursor was delivered. |
| RateLimit.RateLimiter.Hit | backend/src/middleware/rate-limit.ts:68-89 | One request counts in a live window or opens one, and is let through while the count is within the maximum. |
| RateLimit.RateLimiter.Sweep | backend/src/middleware/rate-limit.ts:16-21 | The sweep removes exactly the entries whose window is over. |
| RateLimit.SweepsAreInvisible | backend/src/middleware/rate-limit.ts:15-21 | Sweeps at any moments change no decision. |
| RateLimit.EveryWindowAdmitsAtMostMax | backend/src/middleware/rate-limit.ts:70-87 | With a clock that never goes back, each window of each key admits at most the maximum. |
| RateLimit.AnyIntervalAdmitsLessThanTwice | backend/src/middleware/rate-limit.ts:70-87 | Any interval as long as a window admits at most twice the maximum less one. |
| RateLimit.TwiceLessOneIsReached | backend/src/middleware/rate-limit.ts:70-87 | For every maximum and every window of at least two milliseconds, a run that reaches that bound. |
| RateLimit.OneMillisecondAdmitsMax | backend/src/middleware/rate-limit.ts:70-87 | With a window of one millisecond, where it cannot be reached, an interval as long admits at most the maximum. |
| ClientAddress.AddressIsTrusted | backend/src/middleware/rate-limit.ts:38-49 | Behind as many appending proxies as are trusted, the address is what the outermost wrote, whatever the client sent. |
| BatchCreate.TaskStore.RunOnce | backend/src/routes/grounding-creation.ts:65-103 | One transaction: its checks in order, the provisional row, and the rollback when anything after it throws. |
| BatchCreate.TaskStore.CreateTask | backend/src/services/grounding-transaction.ts:9-21 | Up to three tries, retried only for a concurrent writer. |
| BatchCreate.TaskStore.ImportItems | backend/src/routes/grounding-creation.ts:109-116 | The loop over the items leaves the specified store and report. |
| BatchCreate.TaskStore.Import | backend/src/routes/grounding-creation.ts:53-117 | One unknown status, or an agent asking for another start than backlog, refuses the whole batch and writes nothing; otherwise report and answer code are the loop's. |
| BatchCreate.EveryItemOnce | backend/src/routes/grounding-creation.ts:109-117 | created + skipped + failed = items, and every created or failed item is listed under its own index. |
| BatchCreate.StoreStaysUnique | backend/src/routes/grounding-creation.ts:73 | Whatever a batch meets and others write, no project holds an externalRef twice. |
| BatchCreate.EveryTaskStartsWell | backend/src/routes/grounding-creation.ts:79-88 | In every run, agents' tasks start in backlog and no task starts in a review or terminal state or outside its workflow. |
| BatchCreate.SeenFromFirst | backend/src/routes/grounding-creation.ts:112-113 | A ref is seen once its first item is done, and every later item that carries it is skipped. |
| BatchCreate.FirstAttemptDecides | backend/src/routes/grounding-creation.ts:110-115 | While nobody removes the ref: its first item is created only if the ref was free, and unless that item failed, the ref is taken from then on. |
| BatchCreate.MissingExactly | backend/src/routes/grounding-creation.ts:110-115 | While nobody else adds or removes the ref: it is missing after the batch exactly when it was free before and no try of its first item got its row into the database. |
| BatchCreate.RerunCreatesOnlyWhatFailed | backend/src/routes/grounding-creation.ts:109-116 | Running a batch again creates only items without externalRef, and refs at their first item whose one attempt failed before or whose task somebody removed since. |
| BatchCreate.SkippedRefMayBeMissing | backend/src/routes/grounding-creation.ts:112-115 | A ref can be reported as skipped although no task carries it. |
| PrefixSearch.UniqueIsTheOnlyMatch | cli/src/api.ts:318-324 | `unique` names exactly the one matching task of the pool, and `none` means there is none. |
| PrefixSearch.SearchStatuses | cli/src/api.ts:366-384 | A pass is the specified one and makes at most ten requests. |
| PrefixSearch.RejectionIsReadBack | cli/src/api.ts:390-395 | The server's refusal of a status name is read back as that name. |
| PrefixSearch.SearchCustom | cli/src/api.ts:421-432 | The retry loop ends, with at most one pass for every custom name. |
| PrefixSearch.ListCustomTaskStatuses | cli/src/api.ts:269-304 | The custom names are exactly the well-formed state names read that are not built in, in sorted order, and `complete` says whether every list was read. |
| PrefixSearch.SearchTaskPool | cli/src/api.ts:411-441 | The search is the specified one and, against any server, makes at most ten requests for the built-in statuses and ten for every custom name. |
| PrefixSearch.DropsToTheKnown | cli/src/api.ts:421-432 | Against any server that refuses the first name it does not know, dropping refused names one by one comes to one pass over the names it knows, one request later for each name dropped. |
| PrefixSearch.CustomSearchScansTheKnown | cli/src/api.ts:421-432 | Against an honest server over a pool that stands still it scans the tasks in these names. |
| PrefixSearch.NoneMeansAbsent | cli/src/api.ts:411-441 | The search never fails on a name; `none` without the cap means that no task in a built-in or known custom status matches, and `none` with complete lists that every custom state name of every project was searched for. |
| PrefixSearch.UniqueIsTheNewest | cli/src/api.ts:366-384 | A unique answer is the newest match of the pool and the only one among the tasks scanned, which end with the page that holds it. |
| PrefixSearch.UniqueInPool | cli/src/api.ts:366-384 | It is the only match of the whole pool exactly when the pages behind that one hold none, and always when that one is the last. |
| PrefixSearch.UniqueEverywhere | cli/src/api.ts:411-441 | The answer of the whole search is the only match in all built-in and known custom statuses exactly when the parts of both pools that were not scanned hold none. |
| PrefixSearch.UniqueMayHideAnOlderMatch | cli/src/api.ts:366-384 | A pool in which a unique answer has an older rival on a page never fetched. |
| MovingPool.PassCovers | cli/src/api.ts:366-384 | While tasks come, go and change their status between the requests: a pass sees no task twice, only tasks that were in its statuses at one of its requests, and every task that was in them at all of its requests, but for those behind the cursor it ended with. |
| MovingPool.UniqueAmongTheStaying | cli/src/api.ts:366-384 | A unique answer then has no rival among the tasks that stayed, but on the pages left unread. |
| MovingPool.NoneMeansNoneStayed | cli/src/api.ts:411-441 | `none` without the cap: no matching task was in the built-in statuses at every request of the first pass, or in the known custom ones at every request of the last. |
| TokenStore.MultiSourceStore.Get | mcp-bridge/src/token-store.ts:111-128 | What a read returns under any failures, and `kind` names the store a token came from. |
| TokenStore.MultiSourceStore.Set | mcp-bridge/src/token-store.ts:130-152 | What both stores hold after a set, for every way its writes can fail. |
| TokenStore.MultiSourceStore.Clear | mcp-bridge/src/token-store.ts:154-169 | What both stores hold after a clear, for every way its writes can fail. |
| TokenStore.GivesOnlyWhenBothAgree | mcp-bridge/src/token-store.ts:111-128 | Reads can give only one token exactly when neither store holds another. |
| TokenStore.SetThroughKeychain | mcp-bridge/src/token-store.ts:131-145 | After a set the keychain took, reads are limited to the new token exactly when the file was cleared or holds no other. |
| TokenStore.SetThroughFile | mcp-bridge/src/token-store.ts:146-151 | After a set that fell back to the file, reads are limited to a text exactly when the trimmed token is that text or blank and the failed keychain write left no other. |
| TokenStore.LoginIsCurrent | mcp-bridge/src/token-store.ts:130-152 | After any history and a set that reached both stores, every read until the next set or clear gives that token or none, whatever fails. |
| TokenStore.LogoutIsComplete | mcp-bridge/src/token-store.ts:154-169 | After any history and a clear that reached both stores, no read gives a token. |
| TokenStore.OldKeychainTokenResurfaces | mcp-bridge/src/token-store.ts:146-151 | A login through the file leaves an old keychain token that later reads return. |
| LikePattern.MatchesExactly | backend/src/lib/like-pattern.ts:6-8 | The escaped value matches a text exactly when the two are equal. |
| LikePattern.MatchesPrefix | backend/src/lib/like-pattern.ts:6-8 | With a percent sign behind it, exactly when the value is a prefix. |
| LikePattern.MatchesSubstring | backend/src/lib/like-pattern.ts:6-8 | With percent signs on both sides, exactly when the value is a substring. |
| LikePattern.EscapingIsInjective | backend/src/lib/like-pattern.ts:6-8 | Different values have different patterns. |

## Left out

- HTTP, routing, Prisma, zod, the MCP transport, the keychain and the file system: parameters that answer anything stand for them.
- The wording of the other catalog entries of `mcp-server/src/errors.ts` and the choice among them: `CatalogErrors.CatalogFits` covers the budget of every entry by what its code, recipe and verbs cost.
- The two patterns of `mcp-server/src/errors.ts:403` and `739`, which are tried before the entry of `ForbiddenErrors`; neither matches the overflowing message.
- `githubCreateError` (`mcp-server/src/errors.ts:316-345`): a deliberate passthrough outside the budget.
- Numbers whose text JSON parses to infinity: a number is modelled by its shortest JSON text of at most 25 characters.
- The order of integer-like keys in a JavaScript object: properties are modelled in the order in which they are added.
- The keyword lists, the heading pattern with its alias table and `descriptionQuality` of `backend/src/lib/confidence.ts`: parameters, restricted only where a property needs it to values every one of them has on an empty text.
- The wording and the `dimension` of findings; a suggestion is the list of hints in it.
- Aliasing in the merges and in the stack of key sets: findings and sets are values that are replaced in their sequence, which has the same effect since no two places share one.
- Headings named like an inherited property of JavaScript objects, such as `# Constructor`: the source adds a stray property under another name than the nine fields, which nothing reads.
- The other checks of `parseGroundingRuntimeConfig`, and texts that are not JSON, which are rejected by `JSON.parse` first.
- `resolveEffectiveThreshold` and the risk modifiers: small case splits.
- RateLimit.EveryWindowAdmitsAtMostMax: needs a clock that never goes back and one maximum and window length, as the limiter itself does.
- SlugCache.FinishedCallsAgree: compares with an uncached client whose lookup is answered like the call's own; when the server reassigns the slug during the call, the two may differ by that.
- BatchCreate.TaskStore.Import: audit rows, signals and grounding attempts are part of the steps that may break a transaction, not of the store; the limits on the number of items are the body schema's.
- PrefixSearch.NoneMeansAbsent: speaks of a pool that does not change while it is paged; `MovingPool.NoneMeansNoneStayed` states what holds over one that does.
- PrefixSearch.UniqueInPool: the same; `MovingPool.UniqueAmongTheStaying` is its counterpart.
- PrefixSearch.UniqueEverywhere: the same.
- MovingPool.NoneMeansNoneStayed: needs the last task of each page to be in the pass's statuses still when the next page is asked for, and a vocabulary of statuses that stays the same; what Prisma makes of a cursor whose row was deleted or left the filter (`backend/src/routes/tasks.ts:1855-1888`) is not part of this model. A task that moves from a custom status to a built-in one between the two passes is in neither claim.
- `EnvStore` and the path of the file: no state to speak of.
- Unicode segmentation, URL parsing, sessions and hashing elsewhere in the repository: library behaviour.
