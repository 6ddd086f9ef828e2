# Waygates, verified

Waygates keeps proxies and access rules in a database, compiles them to one Caddy JSON file, loads
that file into a live server, answers forward-auth requests and shows traffic and logs. This project
models the parts of it that carry state or branching and proves what they keep over all inputs, all
interleavings and all runs. Failures are allowed at every step that can fail, those that the code only
logs included: a build that cannot read some table goes on without it.

`dafny verify dfyconfig.toml` checks everything.

| file | what it models | main results |
|---|---|---|
| SyncProtocol.dfy | any number of concurrent syncs as a step relation over database, file, live server and the three mutexes | `LatestWriterReloaded`, `SyncedFileIsBuild`, `SkipNeverRepairs` |
| SyncRefinement.dfy | one sync at a time as a case of the protocol, in both directions | `SequentialIsSolo`, `SoloIsSequential` |
| SyncRaces.dfy | what a nil return is worth under concurrent syncs | `StaysBuildIff`: the state property that decides it |
| FileManager.dfy | the write through a synced temp file, with what a crash may leave | `AtomicWriteBytes`, `PublishSafeIff`, `WriteAll` |
| ProxyService.dfy | create, update, delete, enable, disable with rollbacks over one sync at a time | `RunAll`, `LossIsNotReported`, `DeleteIsNotReconciled` |
| ProxyImport.dfy | bulk import with dry run | `PreviewThenApply` |
| PathMatch.dfy | the greedy wildcard matcher | `MatchPath` equals a character-level glob |
| Acl.dfy | the forward-auth decision | `VerifyAccess` equals a closed form; `ExpiredSessionIgnored`, `OrderIrrelevant`, `AddingGroup`, `AllModeConfigurations`, `AnyModeConfigurations` |
| Traffic.dfy, Quantile.dfy | counter deltas per step, histogram quantiles | `Conservation`, `StepCollects`, `Telescopes`, `QuantilesMean`, `Monotone`, `PointsInOrder` |
| Users.dfy | user administration | `RunAll`: every call does what it says and an active admin remains; `OwnRankFallsIff` |
| Sso.dfy | username generation and provisioning | `UniqueUsername` ends by pigeonhole; `MatchHasEmailIff` |
| CodeStore.dfy | one-time codes | `PruningInvisible`, `FreshCodesSingleUse` |
| LogStream.dfy | the log event stream client | `StreamCaddyLogs` for every chunking, `RoundTrip`, `ViewLogs`, `PrefixShowsComplete` |
| TokenRefresh.dfy | single-flight token refresh | `Always`, `NextRefreshSendsIt` |
| Filenames.dfy, Settings.dfy, Export.dfy | file names, stored settings, paged export | `Idempotent`, `SurvivesIffClean`, `ExportAll` |
| Records.dfy | tables, lost reads and builds | `WholeViewIff` |
| Text.dfy, Sorting.dfy, Sets.dfy, Wrappers.dfy | shared helpers | `TrimRemovesEnds` |

Modelling choices. The configuration builder is a relation between tables and bytes, because the
order of the layer-4 hostnames follows a Go map. A build sees the database through `View`, from which
the reads are missing that failed and were only logged: ACL groups, assignments of single proxies,
layer-4 proxies (sync_service.go lines 357 to 373 and 391) and settings (settings_repository.go lines
31 to 38). A builder is coherent if tables that share one build share all of them; the builder of the
repository is, since its bytes depend on the tables up to the order of those hostnames
(`FreeOrderIsCoherent`). A database call may fail without effect. Faults are
arguments of the methods, so a contract holds for every combination of them. Clock readings, random
codes, address parsing, network containment, password checks and number parsing are parameters.
Floats are exact reals, counters are unbounded integers, letter case is folded for ASCII. A row
inserted with `ssl_forced` false is stored as true, since GORM leaves the column to its default.

Where the code and what is said of it part ways, the model follows the code and states the exact
condition:

- A nil return of a sync does not mean that the file is a build of the database. Lost reads are only
  logged, so the file is a build of what could be read. With a coherent builder that is one of the
  database exactly when the tables without the lost parts have the same builds, as they do when nothing
  stored was lost (`PerformFullSync`, `LossIsNotReported`, `SyncedFileIsBuild`).
  `LostGroupsOpenTheSite` is an input.
- Nor does it mean so under concurrent syncs, since no mutex spans build and write
  (`StaleOverwriteReachable`). A file that is a build stays one until the database changes exactly
  when every sync between its build and its write carries a build of the current database and no loss
  of a later build can show (`StaysBuildIff`, `NilReturnStaysBuildIff`). Among futures in which later
  builds lose nothing that shows, the first condition decides (`StaysBuildWholeIff`).
- The comment in `DeleteProxy` says that the periodic sync will reconcile the live server after a
  failed sync. It does so only if the failed sync had not yet replaced the file. If validation or
  reload failed after the write, the file already matches and every later sync skips
  (`DeleteIsNotReconciled`, `SkipNeverRepairs`, `StaleLiveReachable`). The last clause of
  `PerformFullSync` is the exact condition under which a nil return means that live equals the file.
- Combination mode `all` is documented as requiring every configured method (docs/API.md line 554), and
  the configuration builder reads it as requiring one of the allowed addresses too (acl_builder.go lines
  159 to 167; the routes it generates enforce that in Caddy). The forward-auth decision differs in two
  cases and then lets the request in: failed methods never enter the list of results, so a session that
  passes makes up for missing basic credentials, and allow rules are not consulted
  (`AllModeAsDocumentedIff`). `AllModeConfigurations` says for which groups every request from an
  address is decided as documented; `SessionAloneSuffices` and `ForeignSessionSuffices` are inputs. The
  comments in the code ask for less, and do not hold either (`AllModeAsCommentedIff`).
- Mode `any` is documented as satisfied by any configured method. A rule for a single address, which
  validation accepts (acl_service.go lines 1728 to 1737), never grants, because only networks are parsed
  there; and basic credentials are ignored in a group that also has a secure method
  (`AnyModeAsDocumentedIff`, `AnyModeConfigurations`). `SingleAddressIgnored` and `BasicIgnored` are
  inputs.
- Single sign-on looks an account up by email with a query that also matches usernames. The account it
  finds has that email exactly when each account that uses it as its username has an id not below that of
  an account that has it as its email (`MatchHasEmailIff`); `WrongAccount` is a table the database admits in which it has not.
- A written file is safe against a torn result after a crash because the temp file is synced before the
  rename (`PublishSafeIff`). The directory is never synced, so after a success a crash may still bring
  back the old file (`AtomicWriteBytes`).
- The guard against changing one's own account protects admins and activity. A direct call of the
  service lowers the rank of its own actor exactly when it makes an operator a viewer and keeps it
  active (`OwnRankFallsIff`). Over HTTP the case does not arise, because the route asks for `users:manage`, which
  operators do not have.

## Model

| member | source | states |
|---|---|---|
| SyncProtocol.ExclusiveAlways | backend/internal/service/sync_service.go:283-298 | in every reachable state each of the three mutexes is held exactly by the sync inside its section, and IsSyncing is up exactly while one full sync runs |
| SyncProtocol.WriterStaysAhead | backend/internal/caddy/reloader.go:207-214 | until the next write, the sync that wrote the file has read nothing but the bytes it wrote |
| SyncProtocol.PostSettles | backend/internal/caddy/reloader.go:216-248 | when the writer's load succeeds, file and live agree and no other reload still carries older bytes |
| SyncProtocol.SettledStep | backend/internal/caddy/reloader.go:175-262 | no step but a write disturbs that agreement, be it a skip, a failure or another reload |
| SyncProtocol.LatestWriterReloaded | backend/internal/service/sync_service.go:507-579 | over every interleaving, once the latest writer has reloaded, live equals the file and stays equal until the next write |
| SyncProtocol.StillCarries | backend/internal/service/sync_service.go:512-528 | what a sync built is what it later compares and writes |
| SyncProtocol.SyncedFileIsBuild | backend/internal/service/sync_service.go:507-553 | if the database has not changed since a sync built and nobody wrote since it wrote or skipped, the file is a build of what the sync could read; with a coherent builder it is one of the current database exactly when the losses do not show in builds |
| SyncProtocol.SyncedLiveIsBuild | backend/internal/service/sync_service.go:507-579 | end to end: that sync's reload puts those bytes into the live server, with the same exact condition for a build of the current database |
| SyncProtocol.SkipNeverRepairs | backend/internal/service/sync_service.go:530-537 | once the file is the only build of the database and no write is under way, no later run of syncs that lose nothing changes file or live |
| SyncRefinement.SequentialIsSolo | backend/internal/service/sync_service.go:507-579 | every outcome of the sequential sync model, for every combination of faults, is reached by a run of the concurrent protocol with one sync |
| SyncRefinement.StaleLiveReachable | backend/internal/service/sync_service.go:550-560 | a failed validation after the write reaches such a state with live different from the file |
| SyncRefinement.SoloIsSequential | backend/internal/service/sync_service.go:507-579 | every run of the protocol with one sync and no other change of database or file ends with file, live server and answer of some sequential sync |
| SyncRaces.StaleOverwriteReachable | backend/internal/service/sync_service.go:512-553 | no mutex spans build and write: a sync of an older database can overwrite the file after a newer sync returned nil |
| SyncRaces.FreshForever | backend/internal/service/sync_service.go:512-553 | while the database stays and later builds lose nothing that shows, a file that is a build remains one through all later writes if every sync between build and write carries a build |
| SyncRaces.StaleReachesFile | backend/internal/service/sync_service.go:512-553 | stale bytes in a sync at any point between build and write reach the file in some future, whoever holds the file mutex |
| SyncRaces.LossReachesFile | backend/internal/service/sync_service.go:357-553 | from every state with consistent mutexes, bytes built with a loss can reach the file while the database stays |
| SyncRaces.StaysBuildWholeIff | backend/internal/service/sync_service.go:512-553 | in every future with the same database and later builds that lose nothing that shows, the file is a build exactly when it is one now and no sync carries stale bytes |
| SyncRaces.StaysBuildIff | backend/internal/service/sync_service.go:512-553 | in every future with the same database, lossy builds included, the file is a build exactly when it is one now, no sync carries stale bytes and no loss of a build from this database shows |
| SyncRaces.NilReturnStaysBuildIff | backend/internal/service/sync_service.go:530-553 | what a nil return is worth: the file a sync has settled stays a build in every future with the same database exactly when no sync carries stale bytes at that moment and no loss can show |
| Records.WholeViewIff | backend/internal/service/sync_service.go:357-421 | a build sees the whole database exactly when its failed reads concern nothing that is stored |
| Records.FreeOrderIsCoherent | backend/internal/service/sync_service.go:684-714 | a builder whose bytes depend on the tables up to a free order gives tables that share one build all builds in common |
| Records.BuiltIsAsRead | backend/internal/service/sync_service.go:337-430 | bytes built from what could be read are a build of the database if the losses do not show in builds, as when nothing was lost, and with a coherent builder only then |
| FileManager.Disk.AtomicWriteBytes | backend/internal/caddy/file_manager.go:190-243 | succeeds exactly when no step fails; on failure the files are as before, except a temp file that could not be removed; after every step readers find the old or all of the new content, and a crash leaves what it could leave before or all of the new; exactly these remain possible after a success |
| FileManager.Disk.FillTemp | backend/internal/caddy/file_manager.go:199-222 | create, write and sync happen out of sight of the path, and success means a synced file with all of the data |
| FileManager.RenameSurvives | backend/internal/caddy/file_manager.go:235-237 | what a crash may leave after a rename: what it could before, or an outcome of the renamed file |
| FileManager.PublishSafeIff | backend/internal/caddy/file_manager.go:217-237 | a rename is safe against a torn file exactly when the file was synced or is empty |
| FileManager.WriteAll | backend/internal/caddy/file_manager.go:190-243 | over any sequence of writes a crash leaves exactly what it could at the start or the data of a write that succeeded, and readers find the latest |
| FileManager.Disk.ConfigChanged | backend/internal/caddy/file_manager.go:86-99 | changed exactly when the file is missing or differs; a read error is reported as such |
| ProxyService.Service.PerformFullSync | backend/internal/service/sync_service.go:507-579 | effect on file and live for every combination of faults and losses; a nil return leaves a build of what could be read, which with a coherent builder is one of the database exactly when the losses do not show in builds; live equals the file after a nil return exactly when the run wrote or they agreed before |
| ProxyService.Service.CreateProxy | backend/internal/service/proxy_service.go:110-143 | exact conditions for success and for each refusal, the inserted row, database unchanged on every error whose rollback succeeds, on success a file built from what could be read, hostnames stay distinct |
| ProxyService.UpdatedRow | backend/internal/service/proxy_service.go:172-191 | activity, forced SSL and creator are kept, and only the configuration of the row's own type survives |
| ProxyService.Service.UpdateProxy | backend/internal/service/proxy_service.go:146-212 | exact condition for success and for each error, which fields are kept and cleared, a failed sync keeps the new row, file and live after both syncs |
| ProxyService.Service.DeleteProxy | backend/internal/service/proxy_service.go:215-241 | the row goes even if the sync fails, and exactly when the repository calls succeed |
| ProxyService.Service.EnableProxy | backend/internal/service/proxy_service.go:244-272 | exact conditions for success and for each refusal, rollback to the old database, on success a file built from what could be read |
| ProxyService.Service.DisableProxy | backend/internal/service/proxy_service.go:275-299 | the row is deactivated even if the sync fails |
| ProxyService.RunAll | backend/internal/service/proxy_service.go:110-299 | every sequential run does what its calls say, world by world; hostnames stay distinct, each nil return of create, update or enable leaves a file built from what its sync could read, with the exact condition for a build of the database, failed creates and enables leave the database alone, and live equals the file unless the latest write failed to reload |
| ProxyService.RunOne | backend/internal/service/proxy_service.go:110-299 | one call as a whole: refused without a change, or performed with its syncs, reported and rolled back as its kind says |
| ProxyService.LossIsNotReported | backend/internal/service/sync_service.go:357-421 | with a coherent builder, a run that returns nil leaves a build of the database exactly when its losses do not show in builds |
| ProxyService.LostGroupsOpenTheSite | backend/internal/service/sync_service.go:357-363 | an input: an active proxy is assigned a group, the read of the groups fails, the sync returns nil and file and live server hold the site unprotected |
| ProxyService.Service.SyncUpdated | backend/internal/service/proxy_service.go:198-211 | one more sync first if the hostname changed, whose failure is only logged; nil exactly when the last one returns nil on what the first left |
| ProxyService.Service.InsertAndSync | backend/internal/service/proxy_service.go:126-142 | the row is there exactly after a success or a failed rollback |
| ProxyService.DeleteIsNotReconciled | backend/internal/service/proxy_service.go:229-240 | after a delete whose sync failed between the write and the load, all later syncs that build the same bytes return nil, whatever else they would fail at, and leave the old live configuration |
| ProxyImport.SummarizeImport | backend/internal/service/proxy_import.go:142-161 | each total is the number of items with its statuses, and importable, conflicts and invalid add up to all items |
| ProxyImport.ImportOne | backend/internal/service/proxy_import.go:74-136 | status of one item and whether it claims its hostname, for every fault; exact condition under which it fails |
| ProxyImport.ImportItems | backend/internal/service/proxy_import.go:74-136 | the whole loop reports the preview if no item fails, an item fails only by a fault of its own at its moment, and created hostnames are new and distinct even when calls fail |
| ProxyImport.ImportProxies | backend/internal/service/proxy_import.go:54-140 | a dry run writes nothing and reports the preview; an apply in which no item fails reports what the preview announced; what each item did to the database; each total of the summary is the number of items of its statuses |
| ProxyImport.PreviewThenApply | backend/internal/service/proxy_import.go:50-54 | dry run followed by apply: valid becomes created, conflict becomes skipped, invalid stays invalid, item by item, unless some item fails; what is valid, conflict and invalid, and the row each created item inserts |
| PathMatch.GlobIsLiterals | backend/internal/service/acl_service.go:1535 | splitting a pattern at its stars keeps its meaning |
| PathMatch.LeftmostSuffices | backend/internal/service/acl_service.go:1557-1563 | taking the leftmost occurrence of a middle literal loses no match |
| PathMatch.LastLiteral | backend/internal/service/acl_service.go:1549-1556 | the last literal can be found somewhere exactly when it is a suffix |
| PathMatch.Index | backend/internal/service/acl_service.go:1559 | the leftmost occurrence, or none at all |
| PathMatch.GreedyMatch | backend/internal/service/acl_service.go:1534-1567 | the scan answers true exactly when each star can stand for some string |
| PathMatch.MatchPath | backend/internal/service/acl_service.go:1510-1570 | for every pattern and path: all, literal prefix under a slash-star suffix, or glob |
| PathMatch.WholePatterns | backend/internal/service/acl_service.go:1510-1519 | slash star and star match every path, a pattern without a star itself alone |
| PathMatch.LiteralPrefix | backend/internal/service/acl_service.go:1521-1531 | under a slash star suffix the rest is a literal prefix, stars included |
| PathMatch.PrefixPattern | backend/internal/service/acl_service.go:1521-1531 | for a star-free prefix, the prefix form matches exactly the prefix and what extends it by a slash |
| Acl.EvaluateIPRules | backend/internal/service/acl_service.go:1278-1330 | deny exactly when some deny network covers the address; allow or bypass exactly when none does and some other rule covers it |
| Acl.CheckIPDeny | backend/internal/service/acl_service.go:1839-1876 | true exactly when the address does not parse or some group denies it, single addresses included |
| Acl.CheckIPBypass | backend/internal/service/acl_service.go:1880-1913 | true exactly when some ip_bypass group covers the address |
| Acl.IsUserAllowed | backend/internal/service/acl_service.go:1333-1357 | no restriction, or named by username, email or pattern; roles are not consulted |
| Acl.CheckEmail | backend/internal/service/acl_service.go:1397-1423 | no restriction, or an equal email or a domain suffix up to case |
| Acl.IsOAuthUserAllowed | backend/internal/service/acl_service.go:1362-1393 | provider admitted, then the enabled restriction of the provider or else the group's lists |
| Acl.EvaluateSession | backend/internal/service/acl_service.go:1933-1972 | the session adds one true result exactly when it passes, is refused exactly when judged and not passing, and yields its identity |
| Acl.EvaluateGroupAuth | backend/internal/service/acl_service.go:1918-2042 | closed form of one group's decision in all modes, its identity and its refusal |
| Acl.AfterPhaseOne | backend/internal/service/acl_service.go:2007-2014 | after phase 1 no IP evaluation can answer deny, which removes deny rules from the group's decision |
| Acl.EvaluateUnionAccess | backend/internal/service/acl_service.go:2051-2167 | the three flags in closed form; identity of the first group that passes or the last that refuses |
| Acl.SelectGroups | backend/internal/service/acl_service.go:1224-1250 | the groups of enabled assignments whose pattern matches, in order |
| Acl.VerifyAccess | backend/internal/service/acl_service.go:1196-1265 | allowed exactly when the proxy exists and no group is selected or the union decision allows; errors of the repositories are passed on |
| Acl.OrderIrrelevant | backend/internal/service/acl_service.go:2087-2158 | the flags do not change under permutation of the groups, and the two denial flags exclude each other |
| Acl.AddingGroup | backend/internal/service/acl_service.go:2044-2078 | a group added anywhere turns an allow into a denial exactly when it denies the address |
| Acl.DenyWins | backend/internal/service/acl_service.go:2058-2067 | an address under a deny rule of any selected group is never let in |
| Acl.BypassLetsIn | backend/internal/service/acl_service.go:2069-2078 | an address under an allow or bypass rule of an ip_bypass group is let in exactly when no group denies it |
| Acl.RemoteForms | backend/internal/service/acl_service.go:1840-1855 | an address may come with a port; one that does not parse is never let in |
| Acl.SelectedIff | backend/internal/service/acl_service.go:1224-1250 | a group takes part exactly when an enabled assignment of it has a matching pattern |
| Acl.ExpiredSessionIgnored | backend/internal/service/acl_service.go:1936-1939 | with an expired session the answer is that of the request without it, and nobody is refused for it |
| Acl.LiveSessionCounts | backend/internal/service/acl_service.go:1936-1972 | a session counts up to and including its expiry, by its kind: whether it passes, is refused, and who it names |
| Acl.ExpiryBoundary | backend/internal/models/acl.go:282-285 | bob is let in exactly until his session has expired |
| Acl.DomainsAreWhole | backend/internal/service/acl_service.go:1397-1494 | domain entries and domain patterns admit exactly the addresses at that domain, entries up to case and with or without the at sign |
| Acl.OtherDomain | backend/internal/service/acl_service.go:1480-1494 | a longer name that ends like the domain is not admitted by its pattern |
| Acl.FoldsLetters | backend/internal/service/acl_service.go:1397-1423 | case is ignored for the 26 letters and for nothing else |
| Acl.RolesAloneAdmitNobody | backend/internal/service/acl_service.go:1333-1357 | a list of roles alone shuts everybody out |
| Acl.NamedUserAllowed | backend/internal/service/acl_service.go:1333-1357 | username, email and pattern each admit a user |
| Acl.ProviderMustBeListed | backend/internal/service/acl_service.go:1362-1375 | a provider list shuts out all others |
| Acl.EmailMustBeListed | backend/internal/service/acl_service.go:1397-1423 | an email list admits exactly its emails up to case, empty lists everybody |
| Acl.OwnRestrictionDecides | backend/internal/service/acl_service.go:1376-1393 | an enabled restriction of the provider replaces the group's lists, a disabled one leaves them |
| Acl.BasicAlone | backend/internal/service/acl_service.go:1974-1987 | basic credentials alone count exactly without enabled Waygates settings and without restrictions |
| Acl.NothingPresented | backend/internal/service/acl_service.go:1989-2042 | what each mode does with a request that presents nothing |
| Acl.UnknownModeNeverPasses | backend/internal/service/acl_service.go:1989-2042 | a group in another mode lets nobody in |
| Acl.AllModeAsDocumentedIff | backend/internal/caddy/config/acl_builder.go:141-167 | in mode all a request is decided as documented except when a session passes and configured basic credentials do not match, or when it passes from an address that the group's allow rules do not cover; what is documented to pass does pass |
| Acl.AllModeAsCommentedIff | backend/internal/service/acl_service.go:2001-2028 | the comment that basic users count only without a secure method holds except when a session passes a group with disabled Waygates settings and unmatched basic users |
| Acl.AnyModeAsDocumentedIff | docs/API.md:553 | in mode any a request is decided as documented except when it has only the address of a single-address rule or basic credentials in a group with a secure method; what passes is documented to pass |
| Acl.SomebodyAllowed | backend/internal/service/acl_service.go:1362-1423 | for every configuration of providers, emails and domains some sign-in is admitted |
| Acl.ForeignPasses | backend/internal/service/acl_service.go:1997-2028 | for every group in mode all that names addresses and that somebody can pass, a request from any other address that passes |
| Acl.AllModeConfigurations | backend/internal/service/acl_service.go:1975-2028 | a group in mode all decides every request from an address over every session store as documented exactly when it has no basic users or no Waygates settings, and names no addresses, or this one, or nobody can pass it |
| Acl.AnyModeConfigurations | backend/internal/service/acl_service.go:1293-1325 | a group in mode any decides every request from an address as documented exactly when a network rule covers it, or no rule does and no basic user is ignored |
| Acl.ForeignSessionSuffices | backend/internal/service/acl_service.go:1997-2028 | an input: a signed-in user from outside passes a group in mode all that allows one network |
| Acl.SingleAddressIgnored | backend/internal/service/acl_service.go:1311-1325 | an input: a rule that allows the single address of a request does not let it in |
| Acl.BasicIgnored | backend/internal/service/acl_service.go:1974-1987 | an input: correct basic credentials do not pass a group in mode any that also has a sign-in |
| Acl.SessionAloneSuffices | backend/internal/service/acl_service.go:2015-2028 | a request that passes mode all without the basic credentials the group asks for |
| Quantile.LargestFiniteBound | backend/internal/service/traffic_metrics_service.go:275-281 | the largest finite bound and at least zero |
| Quantile.ValueAtRank | backend/internal/service/traffic_metrics_service.go:283-302 | the value interpolated in the first bucket that reaches the rank |
| Quantile.HistogramQuantile | backend/internal/service/traffic_metrics_service.go:272-303 | the value at rank q times the total |
| Quantile.LerpProportional | backend/internal/service/traffic_metrics_service.go:297 | the value divides the bracket in the proportion in which the rank divides the counts |
| Quantile.SelectsBracket | backend/internal/service/traffic_metrics_service.go:285-301 | on good data the first bucket that reaches the rank exists and holds more than the one before |
| Quantile.InBracket | backend/internal/service/traffic_metrics_service.go:285-302 | the value lies in the bracket it selects and below the largest finite bound; the guard and the fall-through are unreachable |
| Quantile.ValueInterpolates | backend/internal/service/traffic_metrics_service.go:283-302 | in terms of the listing alone: the first bucket that reaches the rank is cut in the proportion in which the rank cuts its observations |
| Quantile.MonotoneInRank | backend/internal/service/traffic_metrics_service.go:272-303 | a higher rank gives no lower value |
| Quantile.Monotone | backend/internal/service/traffic_metrics_service.go:265-266 | quantiles are monotone in q, not negative and bounded by the largest finite bound |
| Quantile.SortBuckets | backend/internal/service/traffic_metrics_service.go:249-251 | the same buckets in ascending order |
| Quantile.ParseBuckets | backend/internal/service/traffic_metrics_service.go:232-245 | exactly the buckets whose labels parse |
| Quantile.LastIsInfinite | backend/internal/service/traffic_metrics_service.go:253-263 | the guards see a +Inf bucket exactly when there is one |
| Quantile.ComputeQuantiles | backend/internal/service/traffic_metrics_service.go:227-268 | zeros without observations or +Inf bucket, else the quantiles of a sorted listing in milliseconds |
| Quantile.ListingIsWellFormed | backend/internal/service/traffic_metrics_service.go:232-263 | a histogram with non-negative labels and observations is listed as good data |
| Quantile.QuantilesMean | backend/internal/service/traffic_metrics_service.go:265-267 | p50 and p95 are, in milliseconds, the interpolated values at one half and nineteen twentieths of the observations |
| Quantile.MedianBelowP95 | backend/internal/service/traffic_metrics_service.go:265-267 | for a histogram whose labels and total are not negative, p50 is not negative and at most p95 |
| Traffic.SortTimes | backend/internal/service/traffic_metrics_service.go:171-173 | the same keys in strictly ascending order |
| Traffic.Accumulate | backend/internal/service/traffic_metrics_service.go:115-168 | one accumulator for each step hit, holding what its samples contribute |
| Traffic.ComputeSeries | backend/internal/service/traffic_metrics_service.go:108-199 | an unknown range is refused; otherwise, in steps of 30, 300 or 3600 seconds, one point per step hit, strictly ascending, each counter of which is its growth over the pairs that end there, adding up to all growth, with p50 not negative and at most p95 if no label is negative |
| Traffic.PointsAt | backend/internal/service/traffic_metrics_service.go:175-196 | a point for each key that states what its step received |
| Traffic.OnePointPerStep | backend/internal/service/traffic_metrics_service.go:171-196 | sorted keys give one ascending point for each step hit and no other |
| Traffic.PointsInOrder | backend/internal/service/traffic_metrics_service.go:185-195 | for labels that are not negative every point has p50 not negative and at most p95, counters that fall included |
| Traffic.OnePairOneKey | backend/internal/service/traffic_metrics_service.go:145-168 | a pair of samples adds its delta to exactly one of the distinct keys |
| Traffic.Conservation | backend/internal/service/traffic_metrics_service.go:119-192 | all counters summed over the points equal the clamped growth over pairs without reset; points begin at multiples of the step |
| Traffic.TotalCollects | backend/internal/service/traffic_metrics_service.go:123-143 | each pair adds to each counter its growth if positive, and nothing if the number of observations fell |
| Traffic.StepCollects | backend/internal/service/traffic_metrics_service.go:115-168 | each counter of a step is its growth over the pairs that end in the step, counted the same way |
| Traffic.Telescopes | backend/internal/service/traffic_metrics_service.go:123-143 | a counter that never falls grows by its last value minus its first |
| Traffic.LastGauge | backend/internal/service/traffic_metrics_service.go:163-164 | the in-flight value of a step is that of its last sample |
| Traffic.HistogramCollects | backend/internal/service/traffic_metrics_service.go:140-167 | the histogram behind a point's quantiles holds, for each label, all its clamped growth in the step |
| Traffic.BoundaryIsMultiple | backend/internal/service/traffic_metrics_service.go:145-146 | a boundary is a multiple of the step and less than one step before the time |
| Users.UserService.AdminCount | backend/internal/service/user_service.go:103-115 | the active admins whose lookup succeeds, so never more than there are |
| Users.UserService.CheckNotLastAdmin | backend/internal/service/user_service.go:226-234 | passing the guard means that another active admin remains, whatever lookups fail |
| Users.UserService.GuardUpdate | backend/internal/service/user_service.go:220-238 | exact condition under which an update is let through |
| Users.UserService.LoadAppUser | backend/internal/service/user_service.go:143-153 | found exactly when the user exists, has a role and the lookups succeed |
| Users.UserService.Create | backend/internal/service/user_service.go:183-206 | the new user and role, or no change except a user whose rollback failed |
| Users.UserService.Update | backend/internal/service/user_service.go:211-264 | exact condition for success and for each refusal under every fault; an active admin remains; the actor keeps activity and the role admin |
| Users.UserService.ResetPassword | backend/internal/service/user_service.go:269-286 | exact condition for success; changes the password and the flag only; the set of active admins is unchanged |
| Users.UserService.Delete | backend/internal/service/user_service.go:290-312 | exact condition for success; an active admin remains; never oneself |
| Users.RunOne | backend/internal/service/user_service.go:183-312 | one call as a whole: exact condition for success, what it changes, nothing but partial writes on failure; no call demotes an admin actor, deactivates or deletes its own actor, and each keeps an active admin |
| Users.RunAll | backend/internal/service/user_service.go:183-312 | every run does what its calls say, world by world, and one that starts with an active admin has one after every call, whatever fails |
| Users.OwnRankFallsIff | backend/internal/service/user_service.go:235-238 | a call lowers the rank of its own actor exactly when it succeeds in making it, an operator, a viewer while keeping it active |
| Sso.CandidatesDiffer | backend/internal/service/sso_service.go:323-329 | base, base1, base2 and so on are pairwise different |
| Sso.CandidateIs | backend/internal/service/sso_service.go:323-329 | the names tried are the base and the base followed by 1, 2 and so on in decimal |
| Sso.BaseIs | backend/internal/service/sso_service.go:319-322 | the base by the position of the first at sign |
| Sso.LocalPart | backend/internal/service/sso_service.go:319-322 | the part before the first at sign, or everything if that is empty |
| Sso.ProbesBounded | backend/internal/service/sso_service.go:323-329 | refused probes are at most as many as taken names and failing lookups |
| Sso.UniqueUsername | backend/internal/service/sso_service.go:318-330 | the first free candidate, after at most one probe more than taken names and failing lookups |
| Sso.Accounts.Find | backend/internal/repository/user_repository.go:32-39 | the account with the smallest id that has the identifier as username or email, and none exactly when there is none |
| Sso.MatchHasEmailIff | backend/internal/repository/user_repository.go:27-39 | the account found for an email has that email exactly when each account with it as username has an id not below that of the account with it as email |
| Sso.SeparateMatch | backend/internal/repository/user_repository.go:27-39 | where no identifier is shared, the account found is the owner of the email |
| Sso.WrongAccount | backend/internal/repository/user_repository.go:27-39 | a table with unique usernames and unique emails in which the owner of an email is taken for another account |
| Sso.Accounts.MatchOrProvision | backend/internal/service/sso_service.go:274-315 | exact condition for success and for each error; usernames and emails stay unique, and identifiers unshared if they were; a success is an active account answering to the email, with the exact condition under which it has that email; what is created, under the first free name |
| CodeStore.OneTimeCodeStore.PruneLocked | backend/internal/service/sso_code_store.go:68-75 | drops exactly the expired entries |
| CodeStore.OneTimeCodeStore.Issue | backend/internal/service/sso_code_store.go:37-49 | prunes and adds the entry with its expiry |
| CodeStore.OneTimeCodeStore.Consume | backend/internal/service/sso_code_store.go:53-65 | answers an unexpired entry and removes the code in any case |
| CodeStore.PruningInvisible | backend/internal/service/sso_code_store.go:37-75 | over every run with a clock that does not go back, answers equal those of a store that never prunes |
| CodeStore.AtMostOnce | backend/internal/service/sso_code_store.go:53-65 | between two successful consumes of a code it was issued again |
| CodeStore.AnswerHasOrigin | backend/internal/service/sso_code_store.go:53-65 | a pair handed out was issued under that code and has not expired |
| CodeStore.IssuedIsAnswered | backend/internal/service/sso_code_store.go:37-65 | the first consume of a code within its lifetime gets the pair, however much is pruned in between |
| CodeStore.FreshCodesSingleUse | backend/internal/service/sso_code_store.go:37-65 | with fresh codes each pair is handed out at most once, after its issue and before its expiry |
| LogStream.Resume | ui/src/hooks/use-caddy-logs.ts:28-30 | splitting may stop after any text and resume with the unfinished frame |
| LogStream.WholeFrame | ui/src/hooks/use-caddy-logs.ts:29 | a text without an empty line is one frame |
| LogStream.FrameThenRest | ui/src/hooks/use-caddy-logs.ts:29 | the first separator ends the first frame and the rest is split on its own, which with the row above determines the split |
| LogStream.FindData | ui/src/hooks/use-caddy-logs.ts:32-33 | the first line of a frame that begins with the field name, without it, and none exactly when there is none |
| LogStream.HandOn | ui/src/hooks/use-caddy-logs.ts:31-34 | the payloads of the frames in order |
| LogStream.StreamCaddyLogs | ui/src/hooks/use-caddy-logs.ts:11-36 | for every text and every chunking, what is emitted and buffered is that of the whole text read at once |
| LogStream.RoundTrip | backend/internal/api/handlers/caddy_logs_handler.go:110 | newline-free lines written as events come out as those lines in that order |
| LogStream.PrefixShowsComplete | ui/src/hooks/use-caddy-logs.ts:24-35 | any prefix of the stream emits exactly the lines whose events it holds completely |
| LogStream.PrefixShowsPrefix | ui/src/hooks/use-caddy-logs.ts:24-35 | any prefix of the stream emits a prefix of the lines |
| LogStream.ShowLines | ui/src/hooks/use-caddy-logs.ts:65-71 | the view holds the last 3000 lines, or all if there are fewer |
| LogStream.ViewLogs | ui/src/hooks/use-caddy-logs.ts:24-71 | end to end: for every chunking of the handler's stream all lines are handed on in order and the view is their last 3000, position by position |
| LogStream.ViewCutOff | ui/src/hooks/use-caddy-logs.ts:24-71 | the same for a stream cut off anywhere, with exactly the lines whose events are complete |
| TokenRefresh.StepKeeps | ui/src/lib/api.ts:11-51 | every step keeps the shared promise that of the only refresh, and every stored token that was sent under refresh |
| TokenRefresh.Always | ui/src/lib/api.ts:39-51 | over every interleaving at most one refresh runs, the flag is up exactly while the promise is pending, and no refresh token is sent twice |
| TokenRefresh.LatestTokenStays | ui/src/lib/api.ts:25-27 | the token of the latest successful reply or login is the stored one until something else touches it |
| TokenRefresh.NextRefreshSendsIt | ui/src/lib/api.ts:11-51 | the next refresh sends that token once, and those asked for meanwhile join it |
| TokenRefresh.ReplySettles | ui/src/lib/api.ts:25-36 | a reply gives those who wait what it stored, or nothing after it logged out |
| Filenames.PairsShrink | backend/internal/service/sync_service.go:667-669 | each pass over a name with a double underscore shortens it |
| Filenames.PassKeepsCollapse | backend/internal/service/sync_service.go:667-669 | a pass does not change what the runs collapse to |
| Filenames.MapImage | backend/internal/service/sync_service.go:657-665 | letters, digits, underscores and hyphens stay, everything else becomes an underscore |
| Filenames.SanitizeFilename | backend/internal/service/sync_service.go:657-675 | ends, and maps, collapses each run to one and strips |
| Text.TrimRemovesEnds | backend/internal/service/sync_service.go:671-672 | trimming removes all characters of a kind at the ends and nothing else; the trimming of networks in settings_repository.go line 139 is another use |
| Filenames.SanitizedIsClean | backend/internal/service/sync_service.go:657-675 | safe characters only, no double underscore, none at the ends |
| Filenames.Idempotent | backend/internal/service/sync_service.go:657-675 | sanitizing twice is sanitizing once |
| Settings.SplitCIDRs | backend/internal/repository/settings_repository.go:136-145 | the trimmed parts that are not blank |
| Settings.KeptIs | backend/internal/repository/settings_repository.go:136-145 | each part that is not blank appears, trimmed and in its order |
| Settings.PaddedItemSurvives | backend/internal/repository/settings_repository.go:139 | an item with blanks around it is kept without them |
| Settings.ParseIsClean | backend/internal/repository/settings_repository.go:134-145 | parsed items are not empty, have no comma and no blanks at the ends |
| Settings.SurvivesIffClean | backend/internal/repository/settings_repository.go:136-150 | a list survives join and split exactly when its items are of that form |
| Settings.NormalForm | backend/internal/repository/settings_repository.go:136-150 | joining what was split splits to the same list, for every text |
| Settings.StoredLoads | backend/internal/repository/settings_repository.go:88-132 | stored settings load back up to that normal form |
| Settings.DefaultsLoad | backend/internal/repository/settings_repository.go:88-109 | with no rows stored the defaults load |
| Settings.SettingsRepository.SetMetrics | backend/internal/repository/settings_repository.go:111-132 | succeeds exactly when no write fails, and then loads back unchanged exactly when the list is clean; after a failure exactly the rows before it are written |
| Export.ExportAll | backend/internal/service/proxy_export.go:75-102 | for every row list every row exactly once and in order, and an error exactly when a page that is read fails; the loop of l4_proxy_export.go lines 118 to 141 has the same shape |

## Left out

- The Caddy, ACL and layer-4 configuration builders, the metrics text parser and the log tailer; a build is a relation and tailed lines are taken to have no newline. Reading several tables for one build counts as one moment.
- Backups of the configuration file and their clean-up, GenerateConfigJSON and the sync status counters: they touch neither the file nor the live server.
- Damage by a crash other than losing the end of a file that was not synced or undoing a directory update; a crash of the whole service in the middle of a sync.
- A load request that fails and is applied by Caddy only after later requests: a failed request takes effect at the latest when its error is reported.
- SQL, GORM, bcrypt, OIDC, goauth, `net` and public suffixes: parameters, maps or fault flags.
- External providers of an ACL group, which the documentation lists among the methods: the decision never reads them.
- The text of denial reasons, redirect URLs, response headers and import reasons; the identity fields that headers are built from are modelled.
- Concurrent calls of the user service, of provisioning and of the proxy service: each call is one step there; only syncs interleave.
- Movement of the clock within one access decision: all groups see the same time.
- HTTP handlers, bulk enable and delete, export by id, the field mapping of exports, layer-4 proxies, React components, other tabs sharing the stored tokens.
- ComputeSeries: does not model 64-bit overflow of counters, because samples stay far below it.
- HistogramQuantile: uses exact reals, so it says nothing about rounding of floats.
- SplitCIDRs: works on characters, so invalid UTF-8 is outside the model.
