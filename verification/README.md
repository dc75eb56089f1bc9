# Porter, modelled and proved in Dafny

Porter is a control plane for Firecracker microVMs. This project models the parts of
it that are algorithms or protocols in their own right, and proves what they promise.
`dafny verify dfyconfig.toml` checks everything.

| file | component | main result |
|---|---|---|
| `Compose.dfy` | boot ordering of compose services | the sort succeeds exactly on acyclic, closed graphs, and then returns the one depth-first boot order |
| `ComposeFile.dfy` | the compose file parser | parsing succeeds exactly on readable, acyclic, closed blocks with images, and returns a boot order |
| `ComposeRender.dfy` | a writer for compose files | services written out are read back exactly, every field of them |
| `Resp.dfy` | RESP v2 codec | reading inverts writing, consumes exactly its bytes, ends on every stream, and never depends on how the stream is cut |
| `Layers.dfy` | OCI layer application | editing in place equals the declarative overlay exactly when every layer is ordered |
| `InitShim.dfy` | PID-1 script generation | under POSIX sh rules the script runs the image's argv in its working directory exactly when cd reaches it, with every variable but PWD and OLDPWD as configured |
| `Rollout.dfy` | deployments: store, handlers, reconciler | convergence of a record and of the whole table in two passes (three without a replica count), weight bounds, live rollback links and a single production record over all runs |
| `RedisPool.dfy` | connection pool | each connection is in exactly one place in every interleaving; exactly when the pool stays empty after Close |
| `Rbac.dfy` | scoped permissions | deny wins, two independent checks agree, and exactly where grants and denials flow down |
| `RateLimit.dfy` | request cap | at most 2L - 1 yes answers to a client in any minute, which is the best bound |
| `Hub.dfy` | event hub | each client sees an in-order selection of the broadcasts, namely exactly those that met its channel registered and with room |
| `Idempotency.dfy` | idempotency keys | replays are stable, runs of one key overlap, and exactly which requests share a record |
| `Ipam.dfy` | subnets and guest addresses | exactly when subnets and addresses are distinct |
| `Gateway.dfy` | weighted round robin | every round serves each replica its exact share |
| `Scheduler.dfy` | node placement | the answer is the unique best feasible node, whatever the input order |
| `Autoscale.dfy` | replica autoscaling | pool and targets stay in the policy, events stay a cooldown apart, and exactly when an emptied pool stays empty |
| `Cron.dfy` | cron runner | parts match what they denote, a schedule fires once per due polled minute, and exactly which weekday fields miss Sundays |

`Strings.dfy` and `Strconv.dfy` hold the parts of Go's strings and strconv packages that
are used, `Sequences.dfy` shared facts about sequences, `Wrappers.dfy` the option and
result types.

Conventions: a mutable object of the original is a class whose methods are proved
against a function on values; a mutex section is one atomic step; the store is
in-memory tables; time is an integer that does not decrease; floats are exact reals;
hooks, clocks, the network and the operating system are parameters.

## Where the code and its descriptions differ

The model follows the code. Each of these is stated as a lemma.

- A late whiteout removes an entry of its own layer (`Layers.LateWhiteoutRemoves`); the
  overlay holds exactly for ordered layers (`Layers.LayerIsOverlay`).
- A command that begins with `-` is not run as such, a working directory named `-` leads
  to OLDPWD or ends the script, and one found along CDPATH wins over the configured one
  (`InitShim.RunsAsConfigured`, `InitShim.DashWorkdir`, `InitShim.DetouredWorkdir`).
- With a working directory, PWD and OLDPWD come from `cd` and not from the image
  (`InitShim.RunsAsConfigured`).
- The reset of a replica count of zero or less to one is written to a copy and lost
  (`ComposeFile.ParseCompose`, `ComposeRender.ResetIsLost`); the error for a value outside
  of a service never occurs (`ComposeFile.OrderCovers`).
- An announced RESP size that no allocation can hold panics the reader
  (`Resp.AnnouncedSizePanics`).
- A created deployment names a sibling to roll back to at once, so where the database
  admits it the first reconcile replaces the image just deployed
  (`Rollout.CreatedImageSurvives`).
- The CHECK of the shipped schema refuses the status `completed`: rollbacks and finished
  builds are never saved, and nothing is ever rolling (`Rollout.RollbackRestores`,
  `Rollout.ShippedSchemaNeverRolls`).
- Promotion leaves the previous production record its route weight: the branch that would
  zero it tests a flag just cleared (`Rollout.PromotionKeepsOldWeights`).
- Setting a rollout of zero on a routed deployment is filled in again by the store
  (`Rollout.RolloutSticks`).
- A call that has not returned by Close, whatever its stage, can refill the pool of the
  closed client; `RedisPool.PoolRefillsAfterClose` says exactly when nothing can.
- Load raises the score in spread mode (`Scheduler.LoadPenalises`).
- The pool of weighted replicas is described as bounded to 100 entries; nothing bounds it
  (`Gateway.PoolGrows`).
- A weekday field with a part that stands for 0 and none that stands for 7 misses Sunday,
  although 0 is documented as Sunday: `0`, `0-6` and `*/2` are such fields
  (`Cron.SundaySchedules`, `Cron.ZeroAndSeven`, `Cron.FieldsWithoutSunday`).
- The 257th project shares the first subnet (`Ipam.SubnetsDistinct`), and a /30 guest can
  clash with a fallback guest of the same project (`Ipam.GuestsDistinct`).
- A pool scaled to zero is not scaled up by load under any policy the API stores with a
  minimum of zero (`Autoscale.StoredEmptyStaysEmpty`).
- One idempotency key is described as never replaying across operations; it does across the
  paths of a route with a wildcard, and across callers (`Idempotency.SharedRecord`,
  `Idempotency.KeyPerPath`).
- Ancestors are described as excluding the scope; exactly the platform is its own ancestor
  (`Rbac.SelfAncestor`).
- Grants are described as inheriting from the platform down to an environment; a reseller is
  above nothing (`Rbac.ResellerNeverAbove`), and the chain breaks at a project where the teams
  table names another org for one of its groups than the groups table (`Rbac.ChainHolds`,
  `Rbac.BrokenChain`). No code of the program inserts into the teams table, and without such
  rows the chain holds everywhere (`Rbac.ChainHoldsWithoutTeams`).

## Model

| member | source | states |
|---|---|---|
| Compose.TopoSorter.Visit | backend/internal/compose/compose.go:277-299 | one visit keeps "grey is the path, black is the output", lists the service after its dependencies, follows the depth-first order, ends, and reports only real cycles and real dangling edges |
| Compose.TopoSorter.Sort | backend/internal/compose/compose.go:272-307 | succeeds exactly when the graph has no cycle and no unknown target; the result is a boot order in which, for every k, what the first k declared services need comes before the rest, and below the service declared first likewise for its dependencies in ascending order |
| Compose.OrderFollowsDeclarations | backend/internal/compose/compose.go:289-305 | the depth-first order has these fronts for every declaration order |
| Compose.OrderAdds | backend/internal/compose/compose.go:277-299 | a visit adds exactly services its names reach, and all of their dependencies |
| Compose.BootOrderImpliesAcyclic | backend/internal/compose/compose.go:271-307 | an order with all dependencies first exists only for acyclic, closed graphs |
| Compose.ListOrderIrrelevant | backend/internal/compose/compose.go:289-291 | permuting depends_on lists does not change the order produced |
| Compose.SortCanonical | backend/internal/compose/compose.go:290 | sorting depends only on the members of the list |
| Strings.LeqMeans | backend/internal/compose/compose.go:290 | the order of names: a beginning comes first, otherwise the first difference decides |
| ComposeFile.OrderCovers | backend/internal/compose/compose.go:96-206 | for every text the declaration order handed to the sort names exactly the declared services, and the "outside of a service" error cannot occur |
| ComposeFile.EmptyLinesIgnored | backend/internal/compose/compose.go:97-100 | a line empty but for white space and a comment changes nothing wherever it stands |
| ComposeFile.CommentsIgnored | backend/internal/compose/compose.go:94-97 | a comment at the end of any line changes nothing |
| ComposeFile.TabsAreSpaces | backend/internal/compose/compose.go:82 | a tab anywhere in a file reads like four spaces |
| ComposeFile.CommentLines | backend/internal/compose/compose.go:94-100 | a line that begins with a hash is ignored, and one without a hash behind white space is read whole |
| ComposeFile.IndentCounts | backend/internal/compose/compose.go:101 | the indentation is the number of leading spaces and of nothing else |
| ComposeFile.BlockBegins | backend/internal/compose/compose.go:104-110 | before the services key nothing is read |
| ComposeFile.BlockEnds | backend/internal/compose/compose.go:112-115 | a line no deeper than the services key ends the block, and nothing after it is read |
| ComposeFile.HeaderReads | backend/internal/compose/compose.go:118-133 | a name and a colon declare a service with one replica and nothing else; an empty name is refused |
| ComposeFile.HeaderRefused | backend/internal/compose/compose.go:118-121 | a line at the level of the names without a colon is refused |
| ComposeFile.KeyReads | backend/internal/compose/compose.go:184-202 | image and restart set their values, build is refused, six keys open a section, any other is ignored |
| ComposeFile.ItemReads | backend/internal/compose/compose.go:139-158 | an item of ports, environment, depends_on or networks is appended to its list or set in its map, or its error is reported |
| ComposeFile.DeployReads | backend/internal/compose/compose.go:159-166 | an item of deploy sets the replica count, refuses one that is no number, and ignores other keys |
| ComposeFile.HealthReads | backend/internal/compose/compose.go:167-180 | a health check starts as a TCP one, a test makes it HTTP, an interval sets its seconds |
| ComposeFile.PortReads | backend/internal/compose/compose.go:224-231 | the protocol follows the first slash, and is TCP without one |
| ComposeFile.PortNumbers | backend/internal/compose/compose.go:232-248 | the last part is the container port and must be a number, the first of several the host port, zero when it is none |
| ComposeFile.PairReads | backend/internal/compose/compose.go:250-259 | a pair around the first equals sign, otherwise around the first colon with its value unquoted, otherwise an error |
| ComposeFile.DurationReads | backend/internal/compose/compose.go:261-269 | seconds with or without their unit |
| Strings.TrimSpaceIs | backend/internal/compose/compose.go:102 | white space around a text is dropped and nothing else |
| Strings.TrimQuotesIs | backend/internal/compose/compose.go:188 | quotes around a text are dropped, of both kinds and however many |
| ComposeRender.ParseRender | backend/internal/compose/compose.go:81-269 | services written out with image, restart policy, ports, environment, networks, replica count, health check and dependencies are read back exactly and in order |
| ComposeFile.ParseCompose | backend/internal/compose/compose.go:81-222 | from the text: succeeds exactly for a readable, non-empty, acyclic, closed block of image-based services, with a boot order of the services as read that follows their declarations; otherwise reports the parse error, no services, a real cycle or dangling edge, or a service without an image, in that order; all counts returned are positive exactly when all counts read are |
| ComposeRender.ResetIsLost | backend/internal/compose/compose.go:213-219 | a file that is accepted and keeps a replica count of zero |
| ComposeFile.FirstWithoutImage | backend/internal/compose/compose.go:213-216 | finds a service without an image exactly when there is one |
| Strconv.AtoiItoa | backend/internal/cache/resp.go:33-37 | printed lengths and integers parse back, over the whole 64-bit range |
| Strconv.AtoiReads | backend/internal/cache/resp.go:68-72 | Atoi reads exactly an optional sign, zeros and the digits of a number within 64 bits |
| Strconv.AtoiLenientReads | backend/internal/compose/compose.go:261-269 | the value used without looking at the error: zero for text that is no number, the nearest limit for one beyond 64 bits |
| Resp.LineEndIsFirst | backend/internal/cache/resp.go:110-114 | a line ends at the first LF of the stream |
| Resp.Reader.ReadCRLFLine | backend/internal/cache/resp.go:110-119 | the next line without its CRLF, and the bytes after it |
| Resp.Reader.ReadReply | backend/internal/cache/resp.go:54-107 | for every stream, byte by byte: end of stream without a LF; malformed without CR, without a known type or without a numeral; otherwise the text, the error, the number, nil, the payload or the items that the line announces, with exactly the rest left; panics of make included; terminates whatever counts are announced |
| Resp.DecodeReads | backend/internal/cache/resp.go:54-119 | the decoding function says the same of every stream |
| Resp.AnnouncedSizePanics | backend/internal/cache/resp.go:74-103 | over every stream the reader panics exactly when a flat walk over heads and byte counts meets a size that exceeds the largest allocation |
| Resp.Reader.ReadItems | backend/internal/cache/resp.go:95-103 | reads exactly the announced items in order, or stops at the first failure |
| Resp.Writer.WriteCommand | backend/internal/cache/resp.go:32-49 | sends exactly the encoded command |
| Resp.DecodeEncode | backend/internal/cache/resp.go:54-107 | reading any encoded reply tree yields its value, errors surfacing first one first, and leaves the following bytes |
| Resp.CommandRoundTrip | backend/internal/cache/resp.go:32-107 | a written command reads back as its binary arguments with the rest unread |
| Resp.CommandInjective | backend/internal/cache/resp.go:31-49 | different argument lists never share an encoding, even followed by other bytes |
| Resp.DecodeStable | backend/internal/cache/resp.go:54-119 | unless the stream ran out, later bytes change neither answer nor consumption |
| Layers.Rootfs.MkdirAll | backend/internal/buildkit/builder.go:361-364 | makes all missing parents, fails exactly when a file is in the way and then changes nothing |
| Layers.Rootfs.EmptyDir | backend/internal/buildkit/builder.go:350-354 | an opaque whiteout removes everything strictly inside the directory |
| Layers.Rootfs.ApplyEntry | backend/internal/buildkit/builder.go:343-386 | by the name, kind and data of one tar entry alone: what is at every path afterwards (the entry and the directories leading to it, nothing below a link, nothing at or below what a whiteout names, nothing inside an opaque directory, everything else as before), and that it stops exactly on a file or link in the way, a file over a directory, or a whiteout through a link, and then changes nothing |
| Layers.PlainEntryLeaves | backend/internal/buildkit/builder.go:360-386 | after a directory, file or link entry each path holds the entry, a directory leading to it, or what was there |
| Layers.WhiteoutLeaves | backend/internal/buildkit/builder.go:348-359 | after a whiteout its target and everything below it is gone; after an opaque one everything inside the directory |
| Layers.EntryMeans | backend/internal/buildkit/builder.go:343-386 | the change an entry stands for refuses and leaves exactly that |
| Layers.LinkReplacesDirectory | backend/internal/buildkit/builder.go:378-385 | a link takes the place of a directory and of everything in it, where a file is refused |
| Layers.Rootfs.ApplyLayer | backend/internal/buildkit/builder.go:328-388 | applies the entries in order, keeps the tree well formed, succeeds exactly without conflicts and otherwise stops before the first entry that is refused |
| Layers.Rootfs.UnpackOCI | backend/internal/buildkit/builder.go:249-257 | applies the layers in order; ordered layers give the stack of overlays |
| Layers.ApplyAt | backend/internal/buildkit/builder.go:349-386 | at each path an entry adds its node, hides what was there, or leaves it |
| Layers.ApplyKeepsWellFormed | backend/internal/buildkit/builder.go:349-377 | every node still sits in a directory after any entry |
| Layers.LayerIsOverlay | backend/internal/buildkit/builder.go:328-388 | a layer that applies yields the declarative overlay exactly when it is ordered |
| Layers.UnpackIsStack | backend/internal/buildkit/builder.go:249-257 | unpacking agrees with the overlay after every layer exactly when all layers are ordered |
| Layers.UnpackKeepsWellFormed | backend/internal/buildkit/builder.go:249-257 | the unpacked tree is well formed |
| Layers.LateWhiteoutRemoves | backend/internal/buildkit/builder.go:355-357 | a whiteout after the file it covers departs from the overlay |
| InitShim.ValidEnvName | backend/internal/buildkit/initshim.go:20-33 | accepts exactly the POSIX names: letters, digits and underscores, no digit first |
| InitShim.BuildInitScript | backend/internal/buildkit/initshim.go:39-68 | refuses exactly an empty command, otherwise writes the preamble and the script tail |
| InitShim.Mounts | backend/internal/buildkit/initshim.go:45-50 | the fixed lines at the head of the script |
| InitShim.LexShQuote | backend/internal/buildkit/initshim.go:15-17 | a quoted string is one literal piece of a word under the shell's token rules |
| InitShim.QuoteInjective | backend/internal/buildkit/initshim.go:15-17 | two values never share a quoted form |
| InitShim.LastEntryWins | backend/internal/buildkit/initshim.go:52-58 | a name has the value of the last valid entry that sets it |
| InitShim.OtherNamesKept | backend/internal/buildkit/initshim.go:51-58 | invalid entries are dropped and unset names keep their value, PATH that of the script |
| InitShim.ScriptRuns | backend/internal/buildkit/initshim.go:39-68 | for all NUL-free strings, evaluating the script tail makes exactly the configured exports, then cd with PWD, OLDPWD, CDPATH, `-` and options, then exec, with their failures |
| InitShim.RunsAsConfigured | backend/internal/buildkit/initshim.go:59-66 | the image's argv runs in the directory its config names exactly when the command is an operand and cd reaches that directory; variables other than PWD and OLDPWD are as configured, and all of them exactly when there is no directory or those two already agree |
| InitShim.PlainWorkdir | backend/internal/buildkit/initshim.go:59-61 | a working directory that is no option is reached exactly when it exists, provided no CDPATH entry holds one of that name |
| InitShim.DetouredWorkdir | backend/internal/buildkit/initshim.go:59-61 | a different directory of that name along CDPATH is entered instead |
| InitShim.DashWorkdir | backend/internal/buildkit/initshim.go:59-61 | a working directory named "-" exits without OLDPWD, and otherwise runs the program in OLDPWD's directory |
| Rollout.ControlPlane.CreateDeployment | backend/internal/store/store.go:780-817 | upserts the normalised record, keeping project and guest base of an existing row |
| Rollout.ControlPlane.HandleCreate | backend/internal/api/handlers.go:1028-1083 | refuses traffic outside 0..100, adds a ready preview record with its pool, or for an unknown image a failed one without a pool and the unprocessable answer |
| Rollout.ControlPlane.HandleSetRollout | backend/internal/api/handlers.go:1235-1262 | refuses missing records and percentages outside 0..100, otherwise saves the percentage |
| Rollout.ControlPlane.HandleSetChecks | backend/internal/api/handlers.go:1159-1188 | refuses a missing record, otherwise replaces its checks |
| Rollout.ControlPlane.RewriteSiblings | backend/internal/api/handlers.go:1307-1319 | marks and saves every deployment of the project |
| Rollout.ControlPlane.HandlePromote | backend/internal/api/handlers.go:1269-1338 | refuses missing, imageless or unchecked targets, otherwise makes the target the live production record |
| Rollout.ControlPlane.HandleDelete | backend/internal/api/handlers.go:4800-4825 | refuses missing and production records, otherwise removes the row and clears rollback requests naming it |
| Rollout.UpsertLeaves | backend/internal/store/store.go:780-817 | a weight of zero is filled in from the percentage and the other way round; an existing row keeps project and guest base; nothing else changes |
| Rollout.CreateLeaves | backend/internal/api/handlers.go:1028-1083 | a creation leaves one preview record with the percentage it asks for, ready or failed |
| Rollout.SettingsLeave | backend/internal/api/handlers.go:1159-1262 | setting a percentage or the checks changes that and nothing else |
| Rollout.PromoteLeaves | backend/internal/api/handlers.go:1269-1338 | promotion: which requests are refused, what the target becomes, what the siblings lose, and that others stay |
| Rollout.DeleteLeaves | backend/internal/api/handlers.go:4800-4825 | deletion: which requests are refused, and which row and which requests naming it go |
| Rollout.AllChecksPassed | backend/internal/store/store.go:874-884 | true exactly when every check has passed |
| Rollout.ControlPlane.UpdateStatus | backend/internal/controller/deployment_controller.go:173-176 | saves the record, or leaves the table alone where the database refuses it |
| Rollout.ControlPlane.ReconcileRolling | backend/internal/controller/deployment_controller.go:110-139 | counts the running replicas, records the pool and saves the running share of the wanted count, or all of the route once enough run |
| Rollout.ControlPlane.Reconcile | backend/internal/controller/deployment_controller.go:42-171 | for every record as listed, field by field against the table as it is now: a failed build marks it failed, a finished one completed with its image, no build changes nothing; a failed one is saved as it is; a production one at 100 is saved at 100; a rollback takes over image, guest base, environment and weight of its target, or is dropped without one; a status the database refuses changes nothing |
| Rollout.BuildingPass | backend/internal/controller/deployment_controller.go:68-104 | one pass over a stored record that waits for its build, field by field |
| Rollout.FailedPass | backend/internal/controller/deployment_controller.go:148-153 | one pass over a failed record leaves it as it is |
| Rollout.FinishedPass | backend/internal/controller/deployment_controller.go:74-146 | one pass over a finished record: pool and running share, full weight, or nothing |
| Rollout.RefusedPass | backend/internal/controller/deployment_controller.go:173-176 | where the database refuses the status a completed record is left alone |
| Rollout.RunningCounts | backend/internal/controller/deployment_controller.go:111-119 | the running count counts the running replicas of project and deployment |
| Rollout.PoolLists | backend/internal/controller/deployment_controller.go:178-187 | the pool lists the replicas of project and deployment, running or not, in order |
| Rollout.ControlPlane.ReconcileOne | backend/internal/controller/deployment_controller.go:42-171 | one reconcile pass of one record |
| Rollout.ControlPlane.ReconcileAll | backend/internal/controller/controller.go:101-113 | listing everything first and then reconciling each entry equals reconciling the records in turn |
| Rollout.RollingWeight | backend/internal/controller/deployment_controller.go:120-138 | weight 100 exactly when running reaches desired, otherwise the floor of the running percentage |
| Rollout.Converges | backend/internal/controller/deployment_controller.go:42-171 | with everything else frozen, two passes reach a fixed point when a replica count is set, three otherwise; one more for a request that names nothing |
| Rollout.BoundsAreTight | backend/internal/controller/deployment_controller.go:86-139 | neither bound can be lowered: a freshly created record needs two, and three without a count |
| Rollout.TableConverges | backend/internal/controller/controller.go:101-113 | the whole table comes to rest in two cycles when every project states a count, three otherwise, whatever order each cycle lists it in |
| Rollout.RestStays | backend/internal/controller/controller.go:101-113 | a table at rest is left alone by every later cycle |
| Rollout.RollbackRestores | backend/internal/controller/deployment_controller.go:156-171 | a rollback takes image, environment and weight of its target and keeps identity, pool, checks and production flag, exactly when the database admits its status; otherwise nothing changes |
| Rollout.CreatedImageSurvives | backend/internal/api/handlers.go:1054-1097 | a deployment created beside others keeps its image through the first reconcile exactly when the named sibling has the same image or the database refuses |
| Rollout.ShippedSchemaNeverRolls | backend/migrations/0005_schema_full_paas.up.sql:37-41 | under the shipped CHECK every record of every run is in the building or failed phase |
| Rollout.StepKeeps | backend/internal/api/handlers.go:1287-1338 | every operation keeps weight bounds, the single production record and the rollback links |
| Rollout.EveryRun | backend/internal/api/handlers.go:1287-1338 | over all runs weights stay in 0..100, a project has exactly one production record from its first promotion on and none before, and a rollback request names a deployment of its project |
| Rollout.RolloutSticks | backend/internal/store/store.go:781-786 | a set percentage is stored exactly when it is not zero or nothing is routed |
| Rollout.PromotionKeepsOldWeights | backend/internal/api/handlers.go:1307-1319 | promotion touches only its project and leaves siblings their weights |
| RedisPool.Redis.AcquireConn | backend/internal/cache/redis.go:215-224 | takes the newest pooled connection, if any |
| RedisPool.Redis.ReleaseConn | backend/internal/cache/redis.go:226-238 | pools the connection, or closes it when the pool is full |
| RedisPool.Redis.Close | backend/internal/cache/redis.go:173-181 | closes exactly the pooled connections and empties the pool |
| RedisPool.Redis.Dial | backend/internal/cache/redis.go:241-262 | opens a connection, closing it again when its handshake fails |
| RedisPool.Redis.Do | backend/internal/cache/redis.go:185-213 | succeeds exactly when an attempt is answered, sends at most twice, retries once on a fresh connection, pools the connection that answered while there is room, leaves every connection pooled once or closed, and is a run of the steps below |
| RedisPool.Redis.Take | backend/internal/cache/redis.go:186-193 | the newest pooled connection, or a fresh one when the pool is empty |
| RedisPool.Redis.Again | backend/internal/cache/redis.go:195-210 | the retry: the failed connection is closed and a fresh one tried exactly once |
| RedisPool.StepKeeps | backend/internal/cache/redis.go:185-262 | every step of every call keeps the ownership discipline |
| RedisPool.EveryRun | backend/internal/cache/redis.go:173-262 | in every interleaving a connection has one owner, is pooled once or is closed; the pool is bounded; a returned call owns nothing and sent at most twice |
| RedisPool.CallsEnd | backend/internal/cache/redis.go:185-213 | every step of a call brings it closer to returning and nobody else's step delays it |
| RedisPool.CloseClosesAll | backend/internal/cache/redis.go:172-181 | Close leaves nothing open exactly when no connection is in flight |
| RedisPool.PoolRefillsAfterClose | backend/internal/cache/redis.go:172-238 | after Close, without new calls, the pool stays empty on every continuation exactly when it has no room or every call had returned |
| Rbac.DedupeScopes | backend/internal/store/rbac_scoped.go:114-124 | keeps every scope once, in the order of first occurrences |
| Rbac.ScopeAncestors | backend/internal/store/rbac_scoped.go:60-112 | by the tables alone: above a project its groups as teams, their orgs and its own org; above a team the orgs of both tables; above an environment its project and what is above that; the platform above everything, last; no repeats |
| Rbac.AboveProject | backend/internal/store/rbac_scoped.go:77-96 | above a project stand exactly the platform, its groups, their orgs and its own org |
| Rbac.AboveTeam | backend/internal/store/rbac_scoped.go:97-104 | above a team stand exactly the platform and the orgs that the two tables name for it |
| Rbac.AboveEnvironmentIs | backend/internal/store/rbac_scoped.go:68-76 | above an environment stand exactly its project and what is above that |
| Rbac.AboveRest | backend/internal/store/rbac_scoped.go:105-111 | above anything else stands the platform alone |
| Rbac.OrgReachesProject | backend/internal/store/rbac_scoped.go:84-96 | an allow or a deny at a project's own org, or at the org of one of its groups, reaches the project |
| Rbac.AncestorsEndInPlatform | backend/internal/store/rbac_scoped.go:110-124 | ancestors never repeat and always end in the platform |
| Rbac.AncestorsOfEnvironment | backend/internal/store/rbac_scoped.go:68-76 | an environment's ancestors are its project and then the project's ancestors |
| Rbac.SelfAncestor | backend/internal/store/rbac_scoped.go:58-112 | a scope is among its own ancestors exactly when it is the platform |
| Rbac.ChainHolds | backend/internal/rbac/rbac.go:17-26 | what is above a scope's ancestors is above it, for every scope but projects, and their environments, with a group for which the teams table names an org that nothing else leads to |
| Rbac.ChainHoldsWithoutTeams | backend/internal/store/rbac_scoped.go:97-104 | without rows in the teams table the chain holds at every scope |
| Rbac.ResellerNeverAbove | backend/internal/rbac/rbac.go:17-26 | no scope has a reseller among its ancestors, so a reseller's assignment matches exactly that scope |
| Rbac.BrokenChain | backend/internal/store/rbac_scoped.go:77-104 | tables within the schema whose two orgs of a team disagree: one org above team, team above project, that org not above project |
| Rbac.GrantsFlowDown | backend/internal/rbac/rbac.go:17-18 | where the chain holds, allows and denies at every scope above reach the scope |
| Rbac.ScopeIn | backend/internal/rbac/rbac.go:118-125 | list membership |
| Rbac.MatchingRoles | backend/internal/rbac/rbac.go:83-88 | exactly the roles held at the scope or above |
| Rbac.MatchingRoleList | backend/internal/store/rbac_scoped.go:197-213 | the store's own matching finds exactly the same roles |
| Rbac.HasCapability | backend/internal/rbac/rbac.go:68-116 | true exactly when some matching role allows and none denies; an error exactly for missing arguments |
| Rbac.ScopedDeny | backend/internal/store/rbac_scoped.go:186-225 | true exactly when a matching role denies, and then the capability check is false |
| Rbac.RowOrderIrrelevant | backend/internal/rbac/rbac.go:83-115 | order and repetition of rows change no answer |
| Rbac.AllowFlowsDown | backend/internal/rbac/rbac.go:79-88 | absent a deny, an allow at the platform reaches everything, one at a project its environments |
| Rbac.DenyFlowsDown | backend/internal/rbac/rbac.go:66-88 | a deny at a project holds in all its environments |
| Rbac.CheckRequest | backend/internal/api/api.go:1108-1139 | a scoped deny at the resolved scope always refuses; otherwise a scoped allow grants, and without either the project, org member or global answer of the legacy tables stands |
| RateLimit.Limiter.AllowRate | backend/internal/api/api.go:185-204 | a new or expired entry admits and opens a minute, a count below the cap admits and counts, any other refuses and changes nothing; all other clients are left alone |
| RateLimit.Limiter.Serve | backend/internal/api/api.go:185-204 | over a whole log each answer depends only on the client's own earlier requests, and in any closed minute a client gets at most 2L - 1 yes answers |
| RateLimit.WindowCap | backend/internal/api/api.go:184-204 | a window admits at most the cap, and its counter counts the admissions |
| RateLimit.MinuteCap | backend/internal/api/api.go:184-204 | any closed minute admits at most 2L - 1 |
| RateLimit.EveryClientCap | backend/internal/api/api.go:184-204 | at most 2L - 1 of the answers given to a client of a shared log in any closed minute are yes |
| RateLimit.MinuteCapIsTight | backend/internal/api/api.go:194-203 | the bound is reached for every cap |
| Hub.EventHub.SendToAll | backend/internal/event/hub.go:29-39 | every registered channel with room gets the event, no other channel changes, which is the broadcast step of the machine |
| Hub.EventHub.Register | backend/internal/event/hub.go:53-56 | adds an empty channel, the joining step |
| Hub.EventHub.DeleteClient | backend/internal/event/hub.go:57-60 | removes the channel and leaves its buffer, the first half of leaving |
| Hub.EventHub.TakeEvent | backend/internal/event/hub.go:67-69 | takes the oldest waiting event, the receiving step |
| Hub.StepKeeps | backend/internal/event/hub.go:29-79 | joining, broadcasting, receiving and both halves of leaving keep the client histories faithful |
| Hub.EveryRun | backend/internal/event/hub.go:29-79 | received plus buffered is an in-order selection of the broadcasts, complete without drops; channels hold at most 32; no send on a closed channel |
| Hub.DropsOnlyWhenFull | backend/internal/event/hub.go:33-37 | over every run a client has been given exactly the broadcasts that met its channel registered and with room, in order, and has lost as many as met it full |
| Idempotency.Store.GetIdempotency | backend/internal/store/idempotency.go:19-28 | the stored record, if any |
| Idempotency.Store.PutIdempotency | backend/internal/store/idempotency.go:32-43 | inserts only a new key, an empty body as an empty object |
| Idempotency.Store.Handle | backend/internal/api/api.go:944-954 | a known key replays, a new one runs and is stored, which are the three steps of the machine in a row |
| Idempotency.Store.Idempotent | backend/internal/api/api.go:937-955 | without a key or a mutating method the handler runs and nothing is stored; otherwise the request is handled under method, route and key |
| Idempotency.EveryRun | backend/internal/api/api.go:937-956 | replays return the stored record, runs of one key overlap, stored records come from runs |
| Idempotency.StoredForever | backend/internal/store/idempotency.go:30-43 | a stored response never changes |
| Idempotency.LaterRequestReplays | backend/internal/api/api.go:945-951 | a request that starts after another of its key has finished, itself a run or a replay, replays the stored record |
| Idempotency.ScopedKeysDistinct | backend/internal/api/api.go:940-944 | triples of method, route pattern and non-empty key never share a record exactly when no route pattern continues another after a space |
| Idempotency.SharedRecord | backend/internal/api/api.go:937-955 | requests given by method, path, caller and key share a record exactly when method, key and route agree |
| Idempotency.KeyPerPath | backend/internal/store/idempotency.go:8-10 | a key never replays across the paths of a route exactly when the route has no wildcard, and always across callers |
| Idempotency.RoutePatternsUnambiguous | backend/internal/api/api.go:819-827 | patterns of the form method and path satisfy that |
| Ipam.VMManager.AllocateSubnet | backend/internal/netmgr/netmgr.go:128-141 | the next subnet, or exhaustion past 255 |
| Ipam.VMManager.AllocateProjectSubnet | backend/internal/netmgr/netmgr.go:28-34 | falls back to the first subnet when exhausted |
| Ipam.VMManager.NetSpec | backend/internal/runtime/vm_manager.go:59-77 | remembers the project's subnet, the next free one or the first when exhausted, and gives guest, gateway and prefix by number: 4r + 2 and 4r + 1 of a /30 up to replica 63, 10 + r and 1 of a /24 otherwise, with the errors |
| Ipam.SubnetsDistinct | backend/internal/netmgr/netmgr.go:28-34 | over all runs subnets are distinct exactly up to 256 projects |
| Ipam.SubnetKept | backend/internal/runtime/vm_manager.go:63-67 | a project keeps its subnet |
| Ipam.LayoutInRange | backend/internal/netmgr/netmgr.go:91-111 | octets are in range and the guest is not its gateway |
| Ipam.GuestsDistinct | backend/internal/runtime/vm_manager.go:59-77 | two granted requests share an address exactly for the same replica or across the two layouts |
| Ipam.OneLayoutNoClash | backend/internal/runtime/vm_manager.go:70-76 | with one layout throughout, granted pairs never clash |
| Ipam.BlocksDisjoint | backend/internal/netmgr/netmgr.go:91-111 | /30 blocks have no address in common |
| Ipam.FallbackClash | backend/internal/runtime/vm_manager.go:70-76 | replicas 18 and 64 of one project clash |
| Gateway.WeightedDeploymentBackends | backend/internal/gateway/gateway.go:374-410 | the pool holds exactly the running, not unhealthy VMs listed by a deployment that has not failed and has a weight; without any it is the fallback alone |
| Gateway.DeploymentSlots | backend/internal/gateway/gateway.go:389-404 | each usable replica, in order, n times: n = 1 for a weight below 20, 10 from 110 on, and 10n <= weight < 10n + 10 between, the rollout percentage standing in for a weight that is not positive |
| Gateway.Cursor.Pick | backend/internal/gateway/gateway.go:124-137 | a matching cookie sticks to the first such replica and leaves the cursor; otherwise the cursor advances as a 64-bit word, picks its slot below 2^63, and from there on panics unless it divides evenly |
| Gateway.RoundIsRotation | backend/internal/gateway/gateway.go:136 | one round of requests is a rotation of the pool |
| Gateway.EverySlotOnce | backend/internal/gateway/gateway.go:136 | every slot is hit exactly once per round |
| Gateway.PoolCount | backend/internal/gateway/gateway.go:381-405 | a replica has exactly its share of slots |
| Gateway.ShareOfOne | backend/internal/gateway/gateway.go:394-401 | a replica listed once has exactly that number of slots |
| Gateway.PoolMembers | backend/internal/gateway/gateway.go:381-405 | the pool has a VM exactly when some deployment offers it |
| Gateway.PoolAppend | backend/internal/gateway/gateway.go:381-405 | the pool lists the deployments in order |
| Gateway.ReplicasInOrder | backend/internal/gateway/gateway.go:389-404 | and the replicas of each in theirs |
| Gateway.PoolGrows | backend/internal/gateway/gateway.go:371-402 | the pool adds up usable replicas times slots, so it has no bound of 100 entries |
| Gateway.Rounds | backend/internal/gateway/gateway.go:136 | over any number of rounds a replica is served its share that many times |
| Gateway.Cursor.PickMany | backend/internal/gateway/gateway.go:124-137 | n requests without a cookie pick the next n slots of the pool, below 2^63 |
| Gateway.Cursor.PickRounds | backend/internal/gateway/gateway.go:124-137 | whole rounds of picks give every usable replica its exact share per round, which for one listed once is the number of slots above |
| Scheduler.Tolerates | backend/internal/scheduler/scheduler.go:66-77 | true exactly when every taint is tolerated |
| Scheduler.Matches | backend/internal/scheduler/scheduler.go:79-86 | true exactly when every wanted label agrees, a missing one reading as empty |
| Scheduler.Candidates | backend/internal/scheduler/scheduler.go:34-52 | keeps exactly the feasible nodes |
| Scheduler.SortByScore | backend/internal/scheduler/scheduler.go:56-63 | an ordered permutation |
| Scheduler.PickNode | backend/internal/scheduler/scheduler.go:33-64 | the id of a feasible node with the highest score, the least id among equals; empty exactly when none is feasible |
| Scheduler.ScoreMeans | backend/internal/scheduler/scheduler.go:88-98 | the score: requested over free and requested vCPUs, less the load, with the sign turned in spread mode |
| Scheduler.SameChoice | backend/internal/scheduler/scheduler.go:30-64 | the id chosen is the same for every arrangement of the input |
| Scheduler.BinpackOrSpread | backend/internal/scheduler/scheduler.go:88-98 | with equal loads binpack takes the fewest free vCPUs, spread the most |
| Scheduler.LoadPenalises | backend/internal/scheduler/scheduler.go:89-97 | load lowers the score exactly under binpack |
| Autoscale.PutAutoscale | backend/internal/api/handlers.go:631-643 | a maximum of zero or less becomes 3, the minimum is brought into 0..max - 1, a target of zero or less becomes 80, nothing else changes |
| Autoscale.AvgCPU | backend/internal/autoscale/scaler.go:132-147 | the sum of the processor samples of all VMs over their number, zero without any |
| Autoscale.LoadIs | backend/internal/autoscale/scaler.go:130-147 | the load is that mean |
| Autoscale.AverageBetween | backend/internal/autoscale/scaler.go:132-147 | the mean lies between the least and the largest sample |
| Autoscale.Scaler.Scale | backend/internal/autoscale/scaler.go:109-128 | resizes the pool, stops exactly the dropped suffix, last VM first, and starts the cooldown; panics exactly on a negative target, recording nothing |
| Autoscale.Scaler.ReconcileProject | backend/internal/autoscale/scaler.go:81-104 | for an enabled policy in its proper range and out of cooldown, by pool size and mean load: below the minimum it boots up to it, above the target it boots one, under the lower load it stops the last one, otherwise and in all other cases it changes nothing; at or above the minimum at most one boot or one stop; it is the step of the project's own run and touches no other project |
| Autoscale.GrownIs | backend/internal/autoscale/scaler.go:109-116 | growing appends exactly the VMs whose boot succeeded, in order |
| Autoscale.PoolBounded | backend/internal/autoscale/scaler.go:81-128 | over all runs the pool stays within the maximum and targets within the policy |
| Autoscale.EventsApart | backend/internal/autoscale/scaler.go:90-93 | any two scale events of a project are at least the cooldown apart |
| Autoscale.CrashesWhen | backend/internal/autoscale/scaler.go:86-124 | the scaler's own code indexes below the pool exactly on an empty one out of cooldown with a negative minimum, scaling down, and a target of zero or more |
| Autoscale.NeverCrashes | backend/internal/autoscale/scaler.go:86-124 | over all runs a minimum of zero or more never does |
| Autoscale.StoredNeverCrashes | backend/internal/api/handlers.go:631-643 | so no run under a stored policy does |
| Autoscale.EmptyStaysEmpty | backend/internal/autoscale/scaler.go:94-147 | a pool found empty stays empty on every continuation exactly when the minimum is at most zero and the target load at least zero |
| Autoscale.StoredEmptyStaysEmpty | backend/internal/autoscale/scaler.go:94-147 | for a stored policy: exactly when the minimum sent was at most zero or the maximum one |
| Cron.MatchPart | backend/internal/cron/runner.go:160-203 | matches exactly lo, lo + step, and so on up to hi |
| Cron.BaseReads | backend/internal/cron/runner.go:173-192 | a star is the whole range, a-b that range, a number itself; unreadable numbers nothing |
| Cron.PartReads | backend/internal/cron/runner.go:161-171 | a step that is a positive number applies, any other reads as one |
| Cron.FieldMatch | backend/internal/cron/runner.go:147-157 | a star, or some comma part that matches |
| Cron.Matches | backend/internal/cron/runner.go:127-145 | five words between white space, all of which match, with Sunday as seven |
| Cron.EveryNth | backend/internal/cron/runner.go:127-145 | which value each field looks at and from where it counts: every n-th minute, hour, day, month and weekday by remainder |
| Cron.SpacingIrrelevant | backend/internal/cron/runner.go:128 | extra white space between the words of an expression changes nothing |
| Cron.SundayReading | backend/internal/cron/runner.go:125-139 | the weekday field is read as documented exactly off Sundays or unless it is no star, some part has 0 in its range and on its step, and none has 7 |
| Cron.SundaySchedules | backend/internal/cron/runner.go:124-145 | an expression matches as documented exactly unless a Sunday meets its other fields and its weekday field is such a one |
| Cron.ZeroAndSeven | backend/internal/cron/runner.go:161-204 | a part with 0 also has 7 exactly when its range reaches 7 and its step is one or seven |
| Cron.FieldsWithoutSunday | backend/internal/cron/runner.go:136-139 | `0`, `0-6` and `*/2` are such fields |
| Cron.FireDue | backend/internal/cron/runner.go:80-99 | exactly the active due jobs not yet run this minute fire |
| Cron.OncePerMinute | backend/internal/cron/runner.go:80-96 | for non-decreasing polls a schedule fires exactly once in each due polled minute other than that of an earlier last run, and never otherwise |

## Left out

- HTTP, SQL text, Firecracker, TAP devices, DNS, TLS, SSH, git, BuildKit and the web UI: input and output without an algorithm of their own.
- Cryptography and the AI gates: unseen primitives, and single decision tables.
- Storage failures: database errors are not modelled, except the CHECK on the deployment status; ScopedDeny answers false on one.
- ComposeFile.ParseCompose: error messages carry no line number.
- Top-level networks of a compose file: a second scan of the same kind.
- Resp.Reader.ReadReply: the largest allocation is that of linux/amd64; running out of memory below it is not modelled.
- Layers.Rootfs.ApplyEntry: an entry that leads through a symbolic link acts wherever the link points, possibly outside the root; the model stops there. File modes and path cleaning are not modelled, and a whiteout names a real entry (not empty, "." or "..").
- InitShim preamble: the mount lines are constant text and are not evaluated; shell variables that a shell makes read-only are not distinguished.
- InitShim.ScriptRuns: where POSIX leaves cd open the model takes one reading: a relative path is seen from the shell's own working directory even when the image exports PWD, cd without a HOME fails, and PWD and OLDPWD are exported; whether the command exists is not modelled.
- Rollout.ControlPlane.HandleCreate: project lookup, tag, preview URL, guest base resolution and the revision column are not modelled; ids are new, and VM boots are a parameter.
- Rollout.EveryRun: operations are atomic; stale read-modify-write of one row by two requests is not modelled.
- RedisPool: the state machine is over connection ids; deadlines and bytes on the wire are in Resp.
- RateLimit: the port is taken off the client address beforehand.
- Idempotency: stored bodies are kept as text; the normalisation of JSON by the database and handler panics are not modelled.
- Ipam: MAC addresses and TAP names are not modelled; replica 245 of the /24 layout gets the broadcast address, as in the code.
- Gateway host lookup: which pool answers a host name is not modelled, only the pool and the pick.
- Autoscale: loads are exact reals, and both hooks are wired.
- Cron: a minute is an index, so local times that occur twice are not distinguished; manual runs and the job VM are not modelled.
- The replica controller (booting, probing and replacing VMs) and the node controller (registration lifecycle and heartbeats): not modelled.
- Volumes, metrics and usage accounting: bookkeeping in tables, not modelled.
