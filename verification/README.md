# QR Safe: a model of its protocols, codecs and bounds

QR Safe stores QR codes. A *dynamic* code's QR holds a link to the service, and the service redirects it to a destination
its owner can change. This project models the parts of that system whose behaviour is hard to see from any one function,
and proves what they promise.

- **Redirects.** Postgres and the Redis redirect cache are updated in separate steps, every cache failure is swallowed,
  entries expire, slugs can be deleted and created again. `Protocol` is the whole of it as an interleaved machine: each
  request is a program counter over atomic steps, each call to a store is done, not done, or done although the caller
  saw an error, entries vanish at any time, and requests are cut off. `History` is what every reachable state keeps;
  `Staleness`, `Coherence`, `Sequential`, `Isolation`, `Creation`, `Gating`, `Progress` and `Overtaken` are what follows.
  The same operations are also written as the methods they are, over objects (`CodesRepository`, `RedirectService`,
  `CodesService`); `Alone` shows that an uninterrupted Resolve, Create, Update or Delete of the machine does what its
  method does.
- **Lists.** `Paging` is the keyset query and walks along its cursors while the tables change; `Cursor` (with `Rfc3339`,
  `Base64`, `Numerals`) is the opaque token; `Listing` joins the two. `ClientList` is the app's copy of the list under
  refreshes, page loads, saves, edits and deletes, and `ClientControllers` are the app's controllers as objects.
- **Safety.** `Safety` is the heuristic checker. It sits behind the verdict cache and in front of every write of a
  destination.
- **Rate limits.** `RateLimit` is the limiter over expiring Redis counters, and the middleware that answers with it.
- **Payloads.** `Payload` is what a code stores, `PayloadEncoder` what its QR holds, and `PayloadDecoder` reads the
  strings back; `DartText` has trimming and percent-encoding.
- **Accounts.** `Password` prints and parses password hashes, `Accounts` turns guests into accounts and logs them in.
- **Analytics.** `Analytics` is the three scan queries over an append-only log that grows between them.

Where a property one might expect is not kept by the code, the condition under which it is kept is proved: the cache
disagrees with the tables only in the ways `Staleness.ExactDisagreement` lists; it agrees in every run without lost
invalidations and overtaken stores (`Coherence.CalmRunsAgree`), and either of the two alone is enough to break it
(`Overtaken.LostInvalidationStays`, `Overtaken.OvertakenStoreStays`); the limiter counts exactly if and only if its
window is positive or nothing is allowed anyway; it keeps its promise over every interval of the configured window if
and only if the window is whole seconds or at most one; a page load keeps the app's list right if and only if the list
it captured is still right when the answer comes; a mailto link is read back if and only if the recipient has no
question mark; a stored code renders as its preview if and only if no field that shows has whitespace around it.

The documentation of `Allow` says that refreshing the TTL only governs cleanup. With a window that is not positive the
refresh deletes the counter instead; the model follows the code.

Line numbers refer to the files of the repository.

## Model

| member | source | states |
|---|---|---|
| Staleness.BoundedStaleness | backend/internal/codes/redirect.go:110-129 | In every interleaved run with any faults, a destination a Resolve settles on at time t is what the run's own tables resolved that slug to after some prefix in force at a moment of [t - 3600 s - d, t], d bounding the time from a read to its store |
| Staleness.AbsentIsNotFound | backend/internal/codes/redirect.go:107-129 | When no prefix of the run in force during the last 3600 s + d resolves the slug, Resolve reports not found, unless the tables could not be read |
| Staleness.NotFoundWasTrue | backend/internal/codes/redirect.go:118-121 | A Resolve that reports not found is right about the tables in force when it looked |
| Staleness.ExactDisagreement | backend/internal/codes/service.go:214-266 | An entry that differs from the tables: the first change after the read behind it is an update or delete whose invalidation is pending, was lost, or came before the entry was stored; re-created slugs included |
| Staleness.QuiescentCoherence | backend/internal/codes/service.go:229-265 | Once every owed invalidation of a slug is carried out and no store was overtaken, its entry equals the tables |
| Coherence.CalmRunsAgree | backend/internal/codes/service.go:214-266 | With requests overlapping: in every run in which no invalidation of a slug is lost and no Resolve stores a target that is no longer the slug's, its entry agrees with the tables whenever no invalidation of it is pending |
| Coherence.UnchangedIsCurrent | backend/internal/codes/redirect.go:118-128 | A store is of that kind when no write has changed the slug since its Resolve read the tables |
| Staleness.FaultFreeLosesNothing | backend/internal/codes/service.go:214-266 | Without faults every change of an existing slug is followed by an invalidation, pending or done |
| Staleness.InvalidationClears | backend/internal/codes/redirect.go:81-86 | A completed invalidation leaves no entry of its slug |
| Staleness.RecordIsPast | backend/internal/codes/repository.go:207-217 | What the tables held after any prefix of a run is the recorded version current at that moment |
| Staleness.VersionWasHeld | backend/internal/codes/repository.go:207-217 | Conversely, every recorded version is the tables after some prefix of the run, in force whenever the version is current |
| Overtaken.OvertakenStoreStays | backend/internal/codes/redirect.go:118-128 | Every run that has come to an uncached dynamic code whose destination may be changed can go on, with no fault and no time passing, until one redirect and one update are over and the former destination is cached |
| Overtaken.LostInvalidationStays | backend/internal/codes/service.go:229-233 | Every run that has come to a cached dynamic code can go on with a single update, overlapping nothing and reporting success, that leaves the former destination cached, if only its Invalidate fails |
| Overtaken.StaleIsReachable | backend/internal/codes/redirect.go:118-128 | Whenever two destinations pass the checker there is a run from the empty tables, with no fault and no time passing, to a stale entry with every request over |
| Sequential.SequentialRefinement | backend/internal/codes/redirect.go:107-129 | When requests do not overlap and invalidations succeed, each Resolve settles on exactly what ResolveSlug returns, not-found included, with lookups and stores failing and entries vanishing arbitrarily |
| Sequential.OrderlyRuns | backend/internal/codes/service.go:214-266 | In such runs every entry agrees with the tables, except the one the request under way is about to invalidate |
| History.StepKeeps | backend/internal/codes/redirect.go:110-129 | Every step keeps the record honest, each entry traceable to the read behind it, each owed invalidation accounted for |
| History.RunKeeps | backend/internal/codes/redirect.go:110-129 | Every reachable state has these properties |
| Gating.NothingMaliciousServed | backend/internal/codes/service.go:77-92 | In no run does a redirect settle on, or a row hold, a URL that does not parse, has no scheme or one of javascript, data, vbscript, file and blob, or is a web link without a host or to a blocklisted domain or its subdomain |
| Gating.RunClean | backend/internal/safety/service.go:91-104 | The verdict cache holds only the checker's verdicts, and nothing malicious is in tables, redirect cache or on its way there |
| Isolation.TablesSound | backend/migrations/0002_create_codes.up.sql:1-28 | In every reachable state slugs are unique, a dynamic row exists iff is_dynamic, and only url codes have one |
| Isolation.OnlyOwnersChangeCodes | backend/internal/codes/repository.go:175-189 | A step that creates, changes or removes a code belongs to a request acting for its owner, although UpdateDestination does not look at the user |
| Isolation.ActWrites | backend/internal/codes/service.go:106-266 | A step changes the tables by its own request's statement, which the tables accept, or not at all |
| Creation.CreateAllOrNothing | backend/internal/codes/service.go:106-156 | In every interleaved run a Create has changed nothing until it is over or when it is cut off; it reports success iff its own insert, under a slug free at that step, took effect and was acknowledged, and that is its one change; having failed it has changed nothing, unless that one insert's acknowledgement was lost |
| Creation.FirstFreeSlugWins | backend/internal/codes/service.go:134-155 | In every interleaved run a Create that is over has tried at most five slugs, each after the first because the one before was taken at its own step; with no failed call and new ids it succeeded iff one was free when tried, and otherwise five were taken; it has tried none iff it was refused |
| Creation.ChangesAreCommits | backend/internal/codes/repository.go:49-99 | The steps of a Create change the tables exactly as often as one of its inserts took effect |
| Progress.RequestsSettle | backend/internal/codes/service.go:106-266 | From any moment of any run a request settles within eight more steps of its own (three for a redirect), whatever fails and whatever runs in between |
| Progress.ActCloser | backend/internal/codes/service.go:134-155 | Each step of a request that has not settled brings it strictly closer to its end, the slug loop included, and moves no other request |
| Alone.ResolveAlone | backend/internal/codes/redirect.go:110-129 | The machine's Resolve, uninterrupted, gives the answer and the cache of the method Resolve for every combination of faults |
| Alone.CreateAlone | backend/internal/codes/service.go:106-156 | The machine's Create, uninterrupted, leaves the tables and reports success as the method Create does, for every combination of faults and slugs |
| Alone.UpdateAlone | backend/internal/codes/service.go:214-247 | The machine's Update, uninterrupted, leaves tables and cache and reports success as the method Update does |
| Alone.DeleteAlone | backend/internal/codes/service.go:251-266 | The machine's Delete, uninterrupted, leaves tables and cache as the method Delete does |
| Tables.ApplySound | backend/migrations/0002_create_codes.up.sql:1-28 | Every statement the service issues keeps the tables sound |
| Tables.ApplyIs | backend/internal/codes/repository.go:49-203 | What each statement leaves in each table, row by row and field by field |
| Tables.AcceptsIs | backend/migrations/0002_create_codes.up.sql:1-28 | Which statements go through: known types by name, slugs no dynamic row has, existing rows, and owners only |
| Tables.SlugsUnique | backend/migrations/0002_create_codes.up.sql:14-20 | In sound tables no two dynamic codes share a slug |
| Tables.ResolveAfter | backend/internal/codes/repository.go:207-217 | What each statement does to what every slug resolves to: only the slug it affects changes, and how |
| Tables.ResolveSlugIs | backend/internal/codes/repository.go:207-217 | A slug resolves to the one dynamic row that has it, and to nothing when none has |
| Tables.OneCodeTouched | backend/internal/codes/repository.go:161-203 | A statement leaves every other code, with its dynamic row, as it was |
| RedirectService.RedisCache.Lookup | backend/internal/codes/redirect.go:53-66 | An unexpired entry is a hit, a missing or expired one a miss without error, a failed call an error |
| RedirectService.RedisCache.Store | backend/internal/codes/redirect.go:69-78 | The entry is replaced with 3600 s to live, unless the call failed |
| RedirectService.RedisCache.Invalidate | backend/internal/codes/redirect.go:81-86 | The slug's entry and no other is dropped, unless the call failed |
| RedirectService.RedisCache.Wait | backend/internal/codes/redirect.go:68-78 | Passing time and entries vanishing early keep the cache coherent with whatever tables it was coherent with |
| RedirectService.RedirectService.Resolve | backend/internal/codes/redirect.go:110-129 | An unexpired entry that could be looked up is served and stays; otherwise a failed query is an error, a missing row not found, and a row is served and stored for 3600 s unless the store failed; with a coherent cache the answer is ResolveSlug's and the cache stays coherent |
| CodesRepository.Repository.Create | backend/internal/codes/repository.go:49-60 | Exactly one static row is added iff accepted, with the caller's fields and both times now; generated fields come back; soundness kept |
| CodesRepository.Repository.CreateDynamic | backend/internal/codes/repository.go:65-99 | Both rows or neither, the slug leading to the new code; a taken slug changes nothing and is told apart from other errors |
| CodesRepository.Repository.UpdateDestination | backend/internal/codes/repository.go:177-189 | That code's dynamic row gets the destination and the time, and nothing else changes; no row is ErrNotFound |
| CodesRepository.Repository.UpdateLabel | backend/internal/codes/repository.go:161-173 | The owner's code gets the label and the time, every other field and row as before; otherwise ErrNotFound and nothing changes |
| CodesRepository.Repository.Delete | backend/internal/codes/repository.go:193-203 | The owner's code goes with its dynamic row and its slug; otherwise ErrNotFound and nothing changes |
| CodesRepository.Repository.Get | backend/internal/codes/repository.go:104-111 | The joined row of the owner's code, ErrNotFound for anyone else's |
| Tables.GetByIDIs | backend/internal/codes/repository.go:104-111 | The owner gets his row with its dynamic row if it has one; nobody else gets anything |
| CodesRepository.Repository.List | backend/internal/codes/repository.go:116-157 | The joined rows of the page after the cursor, in order |
| CodesService.SafetyService.Check | backend/internal/safety/service.go:91-104 | Never an error: the report is the checker's whether cached or not; when it counts as cached, and that it is then cached for six hours |
| CodesService.Service.GuardDestination | backend/internal/codes/service.go:77-92 | Blocks exactly the URLs that are malicious, in the URL's own terms |
| CodesService.Deciding | backend/internal/codes/service.go:134-155 | The first attempt whose slug is free, all before it colliding; five when all collide |
| CodesService.CreatesIs | backend/internal/codes/service.go:106-156 | A static Create succeeds iff its type is known and the insert works; a dynamic one iff it is a url code with a url that is not malicious and one of five attempts meets a free slug and no fault, all before it taken |
| CodesService.Service.Create | backend/internal/codes/service.go:106-156 | When it reports success, and the tables afterwards, for every refusal, fault and pattern of slugs: the first free of five adds exactly that pair, after which the slug resolves to the destination asked for; all five taken, and a malicious destination, are their own errors |
| CodesService.Service.Update | backend/internal/codes/service.go:214-247 | When it reports success, and tables and cache afterwards, for every combination of faults; on success row and answer have the label and destination asked for and nothing else changed; others' codes, static codes and malicious destinations are refused with their own errors; coherence of the cache kept |
| CodesService.ChangedIs | backend/internal/codes/service.go:220-240 | What a successful Update leaves: the label and the destination asked for with their times, every other field and row as before |
| CodesService.UpdatesIs | backend/internal/codes/service.go:214-247 | An Update succeeds iff the code is the caller's, a new destination is not malicious and the code dynamic, and none of the calls it needs fails |
| CodesService.Service.Change | backend/internal/codes/service.go:220-240 | Destination first, the label only behind a destination that came through: success, tables and cache for every combination of faults |
| CodesService.Service.Retarget | backend/internal/codes/service.go:220-234 | Guarded, written, then that slug's entry dropped; on success the row has the destination asked for; refused as unsafe exactly for a malicious destination of a dynamic code |
| CodesService.Service.Relabel | backend/internal/codes/service.go:236-240 | On success the row has the label asked for and the time, and nothing else changes; the cache stays coherent without an invalidation |
| CodesService.Service.Delete | backend/internal/codes/service.go:251-266 | Tables, cache and errors exactly; on success the id is gone from both tables and its slug resolves to nothing; another user's code is not found and stays |
| CodesService.Service.List | backend/internal/codes/service.go:172-202 | Bad tokens, failed queries, and otherwise the page with its token, from one row more than the page |
| Safety.SuffixIsSubdomain | backend/internal/safety/checker.go:115-125 | The string test on "." + bad holds iff bad's labels are a proper suffix of the host's labels; with the exact hit, iff they are a suffix |
| Safety.IsBlocklisted | backend/internal/safety/checker.go:115-125 | True iff the host's labels end with those of a blocklisted domain |
| Safety.Check | backend/internal/safety/checker.go:51-111 | The reasons are exactly those that apply, in order; the verdict is malicious, suspicious or safe as the URL's scheme and host say |
| Safety.CheckHost | backend/internal/safety/checker.go:82-107 | The host's reasons; malicious iff its labels end with a blocklisted domain's, otherwise suspicious iff there is a reason |
| Safety.WorstIsVerdict | backend/internal/safety/safety.go:46-62 | The verdict is the maximum severity of the reasons: safe iff there are none |
| Safety.WorstBounds | backend/internal/safety/safety.go:46-62 | The worst is malicious iff some reason is, and safe iff there is no reason |
| Safety.VerdictIs | backend/internal/safety/checker.go:51-111 | Malicious iff unparseable, or of no scheme or javascript, data, vbscript, file or blob, or a web link without host or under a blocklisted domain; suspicious iff not that and one of the remaining signals is there; no severities in the statement |
| Safety.ReasonsAre | backend/internal/safety/checker.go:51-81 | The one reason for a URL that does not parse, has no or a dangerous scheme, another scheme, or no host, with the schemes written out |
| Safety.HostReasonsAre | backend/internal/safety/checker.go:82-107 | The reasons for a named web host written out: credentials, IP literal, xn-- anywhere, more than 100 bytes, blocklisted, shortener, in this order |
| Cursor.RoundTrip | backend/internal/codes/service.go:312-336 | Decoding an encoded cursor gives the same instant and id, for every four-digit-year instant and every UUID, and no token is empty |
| Cursor.EncodeInjective | backend/internal/codes/service.go:312-315 | Different cursors have different tokens |
| Cursor.UuidTextIs | backend/internal/codes/service.go:312-315 | A UUID prints as lower-case hex digits in groups of 8, 4, 4, 4 and 12 that spell its number |
| Rfc3339.RoundTrip | backend/internal/codes/service.go:313-326 | Section 5.6 of RFC 3339: the printed instant reads back exactly, through trimming of the fraction, and has no bar in it |
| Rfc3339.MonthLength | backend/internal/codes/service.go:313-326 | Months have their lengths, February by the leap year rule |
| Base64.RoundTrip | backend/internal/codes/service.go:314-319 | Sections 3.2 and 5 of RFC 4648: unpadded encodings decode to what was encoded, in both alphabets |
| Base64.Characters | backend/internal/codes/service.go:314-319 | Tables 1 and 2 of RFC 4648: the characters of each alphabet; tokens need no escaping in a URL |
| Base64.Vectors | backend/internal/codes/service.go:314-319 | Section 10 of RFC 4648: the first four encodings there, without padding |
| Paging.SortedIs | backend/internal/codes/repository.go:116-157 | The query's order: the same rows, strictly descending in (created_at, id) |
| Paging.PageExact | backend/internal/codes/service.go:188-201 | A page holds the newest rows after its cursor, at most limit, and its next cursor leaves exactly the rest |
| Paging.WalkDescends | backend/internal/codes/service.go:172-202 | Whatever happens between pages, the keys of a walk strictly descend |
| Paging.WalkFinds | backend/internal/codes/service.go:172-202 | A code present for every request of a walk that ends is on some page |
| Paging.WalkUnderChange | backend/internal/codes/service.go:172-202 | While codes are created, edited and deleted between pages no id is seen twice, and every code present throughout is seen |
| Paging.WalkUnchanged | backend/internal/codes/service.go:172-202 | With no changes the walk ends and its pages together are the full list, in as many pages as PageCount says |
| Paging.PageCountIsCeiling | backend/internal/codes/service.go:193-201 | That is n / limit rounded up |
| Listing.Trimmed | backend/internal/codes/service.go:188-201 | From limit + 1 rows: a token iff there is a further row, made from the last row of the page |
| Listing.PageLimit | backend/internal/codes/service.go:172-178 | 20 for a limit that is not positive, 100 for one above 100, itself otherwise |
| Listing.ListedRows | backend/internal/codes/repository.go:116-157 | The rows of a page are the user's own, created before the cursor's, newest first with ties by descending id, each as both tables hold it |
| Listing.ListedLeavesOut | backend/internal/codes/repository.go:116-157 | A row of the user after the cursor is on the page unless the page is full of rows created later, ties by id |
| Listing.TokenIffMore | backend/internal/codes/service.go:193-201 | The token is empty iff no row of the user after the cursor is missing from the page |
| Listing.TokenRoundTrip | backend/internal/codes/service.go:180-199 | A page's token leads to exactly the cursor it was made from; the empty one to the first page only |
| Listing.TokenWalkIsWalk | backend/internal/codes/service.go:172-202 | Walking by tokens refuses none and gives the pages of the walk by cursors |
| ClientList.ListMirrorsServer | mobile/lib/features/codes/application/codes_list_controller.dart:31-92 | Over any run of non-overlapping refresh, load, save, edit and delete with new codes newest, the list is the user's rows with key at or above its cursor, in order; all of them without a cursor; whatever other users do |
| ClientList.MirrorsIs | mobile/lib/features/codes/data/code_models.dart:98-106 | A list mirrors the tables iff it shows exactly the user's codes created at or after its cursor, newest first, each with the fields stored |
| ClientList.RefreshMirrors | mobile/lib/features/codes/application/codes_list_controller.dart:30-32 | A first page mirrors the tables |
| ClientList.AppendMirrors | mobile/lib/features/codes/application/codes_list_controller.dart:36-51 | The extended list mirrors the tables that answered iff the captured one still does, even when the cursor's row is gone |
| ClientList.AddMirrors | mobile/lib/features/codes/application/codes_list_controller.dart:54-66 | Putting a saved code on top keeps the mirror iff it is newer than everything listed and not below the cursor |
| ClientList.OnTopIs | mobile/lib/features/codes/application/codes_list_controller.dart:54-66 | That is: not created before the cursor, and after every code due on the list, ties by id |
| ClientList.AddUnloaded | mobile/lib/features/codes/application/codes_list_controller.dart:56-59 | Saving before anything is loaded gives a right list iff the user had no codes |
| ClientList.RemoveMirrors | mobile/lib/features/codes/application/codes_list_controller.dart:69-78 | Taking a deleted code off keeps the mirror, the cursor's own row included |
| ClientList.ReplaceMirrors | mobile/lib/features/codes/application/codes_list_controller.dart:81-92 | Showing the server's version of an edited code keeps the mirror |
| ClientList.SaveDuringLoadIsLost | mobile/lib/features/codes/application/codes_list_controller.dart:37-47 | A code saved while a page is on its way is no longer shown when the page arrives |
| ClientControllers.CodesApi.List | mobile/lib/features/codes/data/codes_api.dart:16-28 | No cursor and an empty cursor both ask for the first page; otherwise the page the token stands for |
| ClientControllers.CodesApi.Create | mobile/lib/features/codes/data/codes_api.dart:39-58 | When it throws; otherwise the stored code, which one statement has added |
| ClientControllers.CodesApi.Update | mobile/lib/features/codes/data/codes_api.dart:61-76 | When it throws, and the tables afterwards in either case; what it returns has the label and destination asked for, and so have the tables |
| ClientControllers.CodesApi.Delete | mobile/lib/features/codes/data/codes_api.dart:79-81 | When it throws, and the tables afterwards in either case; without a throw the id is gone |
| ClientControllers.CodesListController.Refresh | mobile/lib/features/codes/application/codes_list_controller.dart:30-32 | Replaces the list by the first page, or keeps what is visible |
| ClientControllers.CodesListController.BeginLoad | mobile/lib/features/codes/application/codes_list_controller.dart:37-39 | A load begins iff there is a next page and none is on its way, and captures the list |
| ClientControllers.CodesListController.EndLoad | mobile/lib/features/codes/application/codes_list_controller.dart:41-50 | The page goes behind the captured list; the guard is released whether or not it came |
| ClientControllers.CodesListController.LoadMore | mobile/lib/features/codes/application/codes_list_controller.dart:36-51 | The list after a load in every case; the mirror is kept |
| ClientControllers.CodesListController.OptimisticallyAddCode | mobile/lib/features/codes/application/codes_list_controller.dart:54-66 | The code goes on top, the cursor stays |
| ClientControllers.CodesListController.OptimisticallyRemoveCode | mobile/lib/features/codes/application/codes_list_controller.dart:69-78 | Every code with that id goes, the cursor stays |
| ClientControllers.CodesListController.ReplaceCode | mobile/lib/features/codes/application/codes_list_controller.dart:81-92 | The code with that id is exchanged in place |
| ClientControllers.CodeDetailController.Show | mobile/lib/features/codes/application/code_detail_controller.dart:28-31 | The edited code is shown at once, and the code shown before is kept for a roll-back |
| ClientControllers.CodeDetailController.Settle | mobile/lib/features/codes/application/code_detail_controller.dart:32-39 | Success puts the server's code into detail and list; a throw puts the kept code back and leaves the list alone |
| ClientControllers.CodeDetailController.UpdateLabel | mobile/lib/features/codes/application/code_detail_controller.dart:28-40 | When it throws, and the tables afterwards; without a throw the stored row and the detail have the new label, nothing else in the tables changed but the time, and the list has the same row; after a throw detail and list are as before; the mirror is kept |
| ClientControllers.CodeDetailController.UpdateDestination | mobile/lib/features/codes/application/code_detail_controller.dart:44-60 | The same for the destination of a dynamic code; nothing happens for a code without one |
| ClientControllers.CodeDetailController.Delete | mobile/lib/features/codes/application/code_detail_controller.dart:63-66 | When it throws, and the tables afterwards; off the server first, then off the list; the mirror is kept |
| ClientControllers.KindsAreKnown | backend/migrations/0002_create_codes.up.sql:4-4 | The schema's check accepts the wire value of each of the app's types, and sms |
| ClientControllers.SaveCode | mobile/lib/features/generator/application/generator_controller.dart:112-122 | When it throws; otherwise what the server stored goes on top, and the list is in sync afterwards iff it belongs there |
| RateLimit.RedisLimiter.Allow | backend/internal/ratelimit/ratelimit.go:34-60 | The n-th request on a live counter is answered with n <= limit and max(0, limit - n) until the first second beyond the bucket, and the counter is left at n for the window's seconds; a broken pipeline is an error |
| RateLimit.RateLimited | backend/internal/http/middleware/ratelimit.go:31-56 | Errors let the request through; otherwise limit and max(0, limit - n) as headers, served iff n <= limit, and 429 with a Retry-After that reaches the first second beyond the bucket |
| RateLimit.KeysApart | backend/internal/ratelimit/ratelimit.go:41-41 | Two pairs of key and bucket share a Redis key only when they are equal, whatever colons the keys contain |
| RateLimit.CountersExact | backend/internal/ratelimit/ratelimit.go:43-52 | For positive windows EXPIRE never drops the counter of a live bucket, which holds exactly the requests counted |
| RateLimit.DecisionExact | backend/internal/ratelimit/ratelimit.go:34-60 | The n-th request of a key in a bucket is decided on n: allowed iff n <= limit, with max(0, limit - n) remaining and a reset at the first whole second that lies in another bucket |
| RateLimit.BucketSpelled | backend/internal/ratelimit/ratelimit.go:35-41 | The bucket is the Unix second over the window's whole seconds, over one when the window is shorter than a second |
| RateLimit.ExactIffPositiveWindow | backend/internal/ratelimit/ratelimit.go:35-48 | Such decisions are taken on all traces iff the window is positive or the limit is not |
| RateLimit.BucketLimit | backend/internal/ratelimit/ratelimit.go:34-60 | At most limit requests of a key are allowed in an aligned bucket |
| RateLimit.SlidingBound | backend/internal/ratelimit/ratelimit.go:34-60 | At most twice the limit in any closed interval as long as a bucket, for every ordered trace |
| RateLimit.SlidingBoundIsTight | backend/internal/ratelimit/ratelimit.go:34-60 | Twice the limit is reached, for every positive window and every limit that is not negative |
| RateLimit.WindowHoldsExactly | backend/internal/ratelimit/ratelimit.go:35-40 | The bound holds over every interval of the configured window iff it is whole seconds or at most one |
| RateLimit.FractionBreaksWindow | backend/internal/ratelimit/ratelimit.go:35-40 | Otherwise three times the limit is allowed in some such interval |
| RateLimit.RetryAfterSuffices | backend/internal/ratelimit/ratelimit.go:54-59 | A blocked key left alone for Retry-After seconds is allowed on its next request when limit >= 1 |
| DartText.ComponentRoundTrip | mobile/lib/features/generator/data/payload_encoder.dart:45-55 | Section 2.1 of RFC 3986: percent-decoding inverts encodeComponent for all text, whose output has no separator in it |
| DartText.Utf8Examples | mobile/lib/features/generator/data/payload_encoder.dart:48-51 | Section 7 of RFC 3629: the bytes of characters of each length |
| DartText.TrimIs | mobile/lib/features/generator/data/code_payload.dart:67-68 | Trimming removes whitespace only, from the ends only, and all of it |
| DartText.EncodeAscii | mobile/lib/features/generator/data/payload_encoder.dart:48-51 | encodeComponent leaves letters, digits and -_.!~*'() alone and turns the rest of ASCII into a percent sign and two upper-case digits; EncodeConcat extends it to all text |
| PayloadEncoder.BuildEmail | mobile/lib/features/generator/data/payload_encoder.dart:45-55 | Collecting parameters one by one gives the mailto link that MailtoRoundTrip is about |
| PayloadDecoder.WifiRoundTrip | mobile/lib/features/generator/data/payload_encoder.dart:22-27 | Splitting at unescaped separators recovers auth, SSID, password (empty for nopass) and hidden flag for every network |
| PayloadDecoder.WifiInjective | mobile/lib/features/generator/data/payload_encoder.dart:22-27 | Two networks share a string iff they are equal up to an unused password |
| PayloadDecoder.WifiEscapeOne | mobile/lib/features/generator/data/payload_encoder.dart:58-59 | Backslash, semicolon, comma, colon and double quote get a backslash, nothing else does; WifiEscapeConcat extends it to all text |
| PayloadDecoder.WifiTextIs | mobile/lib/features/generator/data/payload_encoder.dart:22-27 | The string written out for each authentication scheme, the password missing for nopass |
| PayloadDecoder.FourPassesAreOne | mobile/lib/features/generator/data/payload_encoder.dart:62-66 | The four replace passes equal one simultaneous escape |
| PayloadDecoder.CardEscapes | mobile/lib/features/generator/data/payload_encoder.dart:62-66 | Backslash, comma, semicolon and newline are escaped and nothing else is |
| PayloadDecoder.ValueRoundTrip | mobile/lib/features/generator/data/payload_encoder.dart:62-66 | Unescaping (section 4 of RFC 2426) inverts it, and no newline is left in it |
| PayloadDecoder.CardSplits | mobile/lib/features/generator/data/payload_encoder.dart:30-42 | Splitting a card at newlines gives exactly the emitted lines |
| PayloadDecoder.CardLinesAre | mobile/lib/features/generator/data/payload_encoder.dart:30-42 | The lines of an encoded card written out, blank optional fields missing |
| PayloadDecoder.CardRoundTrip | mobile/lib/features/generator/data/payload_encoder.dart:30-42 | A card reads back as its name and every field that is not blank |
| PayloadDecoder.CardInjective | mobile/lib/features/generator/data/payload_encoder.dart:30-42 | Two cards are equal iff names and non-blank fields are |
| PayloadDecoder.QueryInjective | mobile/lib/features/generator/data/payload_encoder.dart:46-53 | Two queries are equal iff the non-blank fields are |
| PayloadDecoder.MailtoRoundTrip | mobile/lib/features/generator/data/payload_encoder.dart:45-55 | A link reads back as trimmed recipient, subject and body (blank ones empty) iff the recipient has no question mark |
| PayloadDecoder.MailtoIs | mobile/lib/features/generator/data/payload_encoder.dart:45-55 | The link written out for each combination of blank and non-blank subject and body |
| PayloadDecoder.EncodeMeans | mobile/lib/features/generator/data/payload_encoder.dart:13-19 | For each type: a text is encoded as itself, a url as the trimmed input with https:// put before it iff it is not empty and has no scheme, and the decoders read a network, a card and a mail back |
| PayloadDecoder.StoredRenders | mobile/lib/features/generator/data/code_payload.dart:67-91 | A stored payload encodes as the trimmed one, and as the original iff no field that shows has whitespace around it |
| PayloadDecoder.SavedQrIsPreview | mobile/lib/features/codes/data/code_models.dart:56-63 | The same for the QR of a saved static code, which EncodeMeans and SavedQrMeans say the contents of |
| PayloadDecoder.SavedQrMeans | mobile/lib/features/codes/data/code_models.dart:56-63 | What a saved static QR says: the text itself, the normalized url, and the network, card or mail with its fields trimmed when read back |
| PayloadDecoder.DynamicShowsLink | mobile/lib/features/codes/data/code_models.dart:60-63 | A dynamic code with a link shows exactly that link; without one, its stored payload |
| Payload.StoreReload | mobile/lib/features/generator/data/code_payload.dart:67-91 | Reloading what toJson stored never throws and gives the payload with trimmed fields |
| Payload.JsonIs | mobile/lib/features/generator/data/code_payload.dart:115-251 | The stored fields by name, the password dropped for nopass |
| Payload.NormalizeTwice | mobile/lib/features/generator/data/code_payload.dart:257-262 | Normalizing a url is idempotent and leaves nothing to trim |
| Payload.NormalizeIs | mobile/lib/features/generator/data/code_payload.dart:257-262 | A normalized url is empty or has a scheme, and ends with the trimmed input; https:// is put before it iff it is not empty and has none |
| Payload.HasSchemeIs | mobile/lib/features/generator/data/code_payload.dart:260-260 | A url has a scheme iff it is a letter, then letters, digits, +, . or -, then ://, then anything |
| Payload.TypeRoundTrip | mobile/lib/features/generator/data/code_payload.dart:19-24 | Each type's wire value parses to it, and an unknown one to text |
| Payload.ParseTypeIs | mobile/lib/features/generator/data/code_payload.dart:8-44 | The wire values of types and schemes by name, with text and WPA for the unknown |
| Payload.AuthRoundTrip | mobile/lib/features/generator/data/code_payload.dart:39-44 | Each authentication scheme's wire value parses to it |
| Password.HashPassword | backend/internal/auth/password.go:38-51 | The PHC string of the derived key and the salt drawn, or an error when there is no entropy |
| Password.HashedIs | backend/internal/auth/password.go:19-50 | The string stored: $argon2id$v=19$m=65536,t=1,p=4$, the salt, and the 32 bytes derived with those parameters |
| Password.VerifyExact | backend/internal/auth/password.go:56-86 | For every password and salt a printed hash parses without error, and accepts exactly the passwords that derive the same key |
| Password.VerifyAny | backend/internal/auth/password.go:56-87 | A version 19 hash with any parameters in range and any expected bytes is checked by deriving with those parameters and that length |
| Password.OtherVersion | backend/internal/auth/password.go:62-68 | A hash of any version but 19 is incompatible |
| Password.InvalidIffMisshapen | backend/internal/auth/password.go:57-60 | Refused as invalid iff it is not $argon2id$ and four parts without dollar signs |
| Accounts.UserRepository.Create | backend/internal/users/repository.go:39-53 | The row is inserted iff its e-mail is free; uniqueness kept |
| Accounts.UserRepository.GetByID | backend/internal/users/repository.go:56-71 | The row with that id, or ErrNotFound |
| Accounts.UserRepository.GetByEmail | backend/internal/users/repository.go:74-89 | The one row with that address in any spelling, or ErrNotFound |
| Accounts.UserRepository.Update | backend/internal/users/repository.go:94-112 | The row is replaced iff it exists and its e-mail is free; the errors apart; uniqueness kept |
| Accounts.AuthService.CreateGuest | backend/internal/auth/service.go:52-58 | A guest without credentials, created and updated now, is added, also when only the token fails |
| Accounts.AuthService.UpgradeToAccount | backend/internal/auth/service.go:63-84 | On success the guest's row has that e-mail, no one else's, and the printed hash, is no guest any more and keeps its creation time; the table after an upgrade and each refusal for every combination of faults |
| Accounts.AuthService.Login | backend/internal/auth/service.go:88-108 | Succeeds only for a row with that e-mail, in any spelling, whose hash accepts the password; no such row and a wrong password give the same error |
| Accounts.RunSound | backend/internal/users/repository.go:39-112 | In every sequential run e-mails stay unique and exactly guests lack credentials |
| Accounts.AccountsStay | backend/internal/auth/service.go:63-84 | An account is never changed again, let alone made a guest |
| Accounts.LoginPermanence | backend/internal/auth/service.go:63-108 | After a successful upgrade, in all later states, that e-mail in any spelling logs in as that user with exactly the passwords deriving the same key, the right one among them |
| Analytics.ScanLog.RecordScan | backend/internal/codes/redirect.go:133-145 | One event is appended, empty values as NULL, or none when the insert fails |
| Analytics.ScanLog.ScanDaily | backend/internal/codes/repository.go:246-271 | One row per day with scans, days strictly increasing, counts exact |
| Analytics.ScanLog.ScanTopUserAgents | backend/internal/codes/repository.go:275-301 | At most limit agents with exact counts, each outranking the next and everyone left out |
| Analytics.Analyze | backend/internal/codes/service.go:271-303 | When it succeeds; not found for others; zeros for static codes; otherwise each part exact for the log its query saw, in the counts that UniqueGrows and CountsGrow are about |
| Analytics.DailyIsTotal | backend/internal/codes/repository.go:246-271 | The daily counts of a log add up to its total |
| Analytics.UniqueGrows | backend/internal/codes/repository.go:234-243 | Unique visitors event by event: none for no scans, one more exactly when the slug is scanned with a hash that no earlier scan of it has |
| Analytics.CountsGrow | backend/internal/codes/repository.go:234-301 | Totals, daily counts and agent counts event by event: one more exactly for a scan of the slug, on that UTC day, by that agent |
| Analytics.ListedAreCounted | backend/internal/codes/repository.go:246-301 | The days and agents grouped by are exactly those with a scan of the slug |
| Analytics.StatisticsConsistent | backend/internal/codes/service.go:271-303 | unique <= total <= sum of daily counts <= events at the end, whatever is scanned in between; the daily counts add up to the total iff no scan of the slug came between the first two queries; at most ten agents, more frequent ones first and ties in collation order, nobody left out that outranks one listed, nobody at all when there are fewer than ten |

## Left out

- HTTP handlers, routing, authentication middleware, logging, configuration, the Flutter screens and QR rendering.
- JSON, net/url parsing, JWT signing, argon2id and SHA-256: parameters or taken as given. `Safety.Checker` carries the
  result of parsing a URL; cache keys made from hashes are taken never to collide.
- The wording of the checker's reasons: only their codes and severities are modelled. Its host lists are any lists.
- A codes service without a checker, for which gating is switched off; here there always is one.
- Ids made by `gen_random_uuid` are taken never to repeat (`Db.issued`), also after a code is deleted.
- Slug generation: slugs are inputs, so every pattern of collisions is covered, but not their probability.
- `users` as the parent of `codes`: a user's codes are not removed with the user, which no operation of the model does.
- time.Parse forms that RFC 3339 does not have (a comma before the fraction, one-digit hours): they only make the decoder
  of cursors accept more.
- Creation times outside the years 0 to 9999: lists are modelled for tables without them (`InRange`).
- Overflow of counters and limits: integers are unbounded, except where a scan of a hash checks the width.
- The clocks of the limiter and Redis are one, and never go back; the limiter's key is given, not read from headers.
- Removal of live keys by Redis when memory runs out, for the rate limiter; the redirect and verdict caches lose entries at
  any time.
- Strings of the app with unpaired surrogates: text is a sequence of Unicode scalar values.
- Parameters argon2id panics on (no passes, no threads): the function is total here.
- Upgrades of one guest that overlap; account requests run one after another.
- How a refresh that fails shows its error: the list it keeps is modelled.
- ClientList.ListMirrorsServer: requests of the app that overlap, and writes whose answer is lost on the way back; a page
  load that overlaps a save is the subject of ClientList.SaveDuringLoadIsLost.
- Analytics.ScanLog.ScanDaily: days are numbers instead of their printed form, whose order is the same for the years 0 to 9999.
- Analytics.ScanLog.ScanTopUserAgents: the collation is any strict total order on strings.
- The list of recent scans, the raw counts on the app's dashboard, and the code detail's own analytics.
