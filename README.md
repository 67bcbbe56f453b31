# ecsceed in Dafny

ecsceed deploys Amazon ECS services and task definitions from a stack of
YAML configuration files. A file may name a `base` file. Parameters from
every layer are flattened, last layer winning. Task definitions and
services are rendered as templates with those parameters. The `deploy`,
`rollback`, `run` and `logs` commands then turn the resolved definition
into ECS and CloudWatch Logs calls.

This project models the core of that program:

- the configuration stack loader;
- resolving the stack into an application;
- the ECS helpers;
- the deploy planner, including its normalisation for dry-run diffs;
- rollback, one-off task runs and log display;
- parsing of the `--param k=v` options of the command line.

Each module follows one source file:

| module | source |
|---|---|
| `Wrappers` | Option and Result |
| `Text` | the Go string and number helpers the source relies on |
| `Sorting` | `sort.Slice` by a string key |
| `Ecs` | the SDK records |
| `Client` | the AWS client and the log of the calls issued |
| `Config` | config.go |
| `Resolve` | ecsceed.go |
| `Normalize` | the diff normalisation in ecs_util.go |
| `EcsUtil` | the other helpers in ecs_util.go |
| `Listing` | the task-definition listing in ecs_util.go |
| `Deploy` | deploy.go |
| `Rollback` | rollback.go |
| `Run` | run.go |
| `Logs` | logs.go |
| `Cli` | cmd/ecsceed/deploy.go |

How the model represents the program:

- **AWS calls.** The AWS client is a record of response functions (`Client.Api`).
  - Calls that change something or wait are appended to an action log, and `api.outcome` decides whether each one fails.
  - Reads are answered by the `Api` record and are not logged.
  - Every command is therefore a function from its inputs to "the calls issued, and the first error".
  - The imperative Go code becomes a `method` with loops that is proved to compute that function.
- **Map iteration.** Go iterates a map in an unspecified order. That order is an explicit parameter that enumerates the keys.
- **Panics.** A nil dereference or an index out of range in the source becomes the error value `Crash`. It is not a precondition. The exceptions are the few pointer fields the model holds as plain strings, listed under "## Left out" (`Ecs.ApiFailure`, `Ecs.Container`, `Ecs.Task`, `Ecs.LogConfiguration`): their nil dereferences are not modelled.
- **Outside code.**
  - The template renderer, the JSON parser and `filepath.Abs` are opaque, fallible functions.
  - Decoding a parsed task-definition document into a value that already holds fields is modelled (`Resolve.DecodeInto`): mentioned fields are replaced, others kept, and containers are merged by position.
  - So are the `String()` renderers and `strconv.ParseFloat`.
  - `resolveFullName` and `resolveKeyName` are functions passed in (`Deploy.Naming`).
- **Clock.** The current time is a parameter, in nanoseconds.

## Model

| member | source | states |
|---|---|---|
| Config.ReadLayer | config.go:42-53 | a layer reads exactly when its path exists and decodes, and its `dir` is then the directory of the path |
| Config.LoadConfigStack | config.go:36-70 | the loop returns `Chain`, the stack of the `base` links, root first |
| Config.ChainIsChain | config.go:36-70 | a loaded stack is a chain: the last layer is the file given, each `base` resolves to the layer before it, and only the root has no `base` |
| Config.IsChainIsLoaded | config.go:36-70 | conversely, every chain that fits the fuel bound is what the loader returns |
| Config.BrokenLinkFails | config.go:42-51 | a file on the chain that cannot be opened or decoded makes loading fail |
| Config.SelfBaseNeverEnds | config.go:56-66 | a file whose `base` is itself never yields a stack |
| Config.TwoFileChain | config_test.go:29-37 | an overlay on a root file gives two layers, root first |
| Resolve.FlattenParams | ecsceed.go:52-57 | the params loop computes `Flatten` of the stack |
| Resolve.FlattenKeys | ecsceed.go:52-57 | a key is flattened exactly when some layer declares it |
| Resolve.FlattenLastWins | ecsceed.go:52-57 | a flattened key has the value of the last layer that declares it |
| Resolve.DecodeIntoField | ecsceed.go:62-83 | decoding a document over a value replaces the top-level fields the document mentions and keeps the others; a mentioned container list takes the document's length, and its container i is the document's container i decoded into the old container i, or into the zero container past the old length |
| Resolve.DecodeContainerField | ecsceed.go:62-83 | decoding a container document into a container replaces the fields it mentions and keeps the others |
| Resolve.DecodeCompleteDoc | ecsceed.go:62-83 | a document that mentions every field, and whose containers mention every field, decodes to its own values whatever it is decoded into |
| Resolve.DecodeEmptyDoc | ecsceed.go:62-83 | a document that mentions no field leaves the value unchanged |
| Resolve.DecodeTwice | ecsceed.go:62-83 | decoding a base and then a file equals decoding one document holding both, the file winning and its containers merged into the base's by position, whenever the target holds no more containers than the base's list (as the zero value) |
| Resolve.DecodeContainerTwice | ecsceed.go:62-83 | decoding two container documents in turn equals decoding their combination, the second winning |
| Resolve.DecodeTaskDefinition | ecsceed.go:62-83 | one iteration of the task-definition loop computes `ResolveTd` |
| Resolve.ResolveLayerTds | ecsceed.go:61-88 | the inner loop extends the resolution by the declarations of one layer |
| Resolve.ResolveTaskDefinitions | ecsceed.go:59-89 | the task-definition loops compute `ResolveTds` over all declarations |
| Resolve.ResolveServiceDefinitions | ecsceed.go:91-109 | the service loops compute `ResolveServices` over all declarations |
| Resolve.NewAppWithConfigStack | ecsceed.go:51-115 | the constructor computes `Resolved`: parameters, then task definitions, then services |
| Resolve.TdsCollect | ecsceed.go:59-89 | resolving task definitions stores the declarations' results in order |
| Resolve.ServicesCollect | ecsceed.go:91-109 | resolving services stores the declarations' results in order |
| Resolve.CollectFails | ecsceed.go:59-109 | storing fails exactly when some declaration fails, with the first failure's error |
| Resolve.CollectKeys | ecsceed.go:59-109 | on success the names stored are exactly the names declared |
| Resolve.CollectLastWins | ecsceed.go:59-109 | on success a name holds the value of its last declaration |
| Resolve.ResolvedNames | ecsceed.go:117-122 | the maps hold exactly the declared names, so `TaskDefinitionsNum` and `ServicesNum` count the distinct names |
| Resolve.ResolvedTdLastWins | ecsceed.go:59-89 | the task definition under a name is the one resolved from its last declaration |
| Resolve.ResolvedServiceLastWins | ecsceed.go:91-109 | the service under a name is the one rendered from its last declaration |
| Resolve.ResolvedFails | ecsceed.go:51-115 | resolution fails exactly when some task definition or service fails to render or decode |
| Resolve.BaseThenFile | ecsceed.go:64-82 | with both a base file and a file, a top-level field other than the containers comes from the file, else from the base, else is zero |
| Resolve.BaseThenFileContainer | ecsceed.go:64-82 | with both files there are as many containers as the file lists (the base's count when the file lists none), and a field of container i comes from the file's container i, else from the base's container i, else is zero |
| Resolve.DecodedContainer | ecsceed.go:64-82 | decoding a base document and then a file document into the zero task definition gives container i field by field from the file, else the base, else zero, with the file's container count when it lists containers |
| Text.Split | cmd/ecsceed/deploy.go:50 | `strings.Split` gives at least one part, and no part holds the separator |
| Text.JoinSplit | cmd/ecsceed/deploy.go:50 | joining the parts of a split gives back the string |
| Text.SplitJoin | cmd/ecsceed/deploy.go:50 | splitting a join of parts free of the separator gives back the parts |
| Text.LastOfSplit | ecs_util.go:28-31 | the last part of a split is the longest suffix free of the separator |
| Text.Index | ecs_util.go:226 | `strings.Index` is the first occurrence, or none when there is none |
| Text.TrimSuffix | logs.go:33 | `TrimSuffix` removes the suffix when present and nothing otherwise |
| Text.WrapInt64 | logs.go:39-46 | the wrapped value is a 64-bit integer, and in-range values are unchanged |
| Text.AtoiIntToString | logs.go:34 | `Atoi` reads back every 64-bit integer's decimal text |
| Text.EncodeChar | ecs_util.go:49 | a character is one to four UTF-8 bytes, one exactly when it is ASCII, with a lead byte and continuation bytes otherwise |
| Text.Utf8Append | ecs_util.go:43-46 | the bytes of a formatted line are the bytes of its parts, in order |
| Text.Utf8Length | ecs_util.go:49 | a string's byte length, which Go's `len` gives, equals its character count exactly when it is ASCII |
| Sorting.SortByKey | ecs_util.go:106-147 | the sorted list is ordered by the key and is a permutation of the input |
| Sorting.SortedUnique | ecs_util.go:106-147 | two ordered permutations of each other are equal when the key tells elements apart |
| Sorting.SortByKeyForgetsOrder | ecs_util.go:106-147 | sorting gives the same list for any order of the same elements |
| Sorting.SortByKeySorted | ecs_util.go:106-147 | an ordered list is left as it is |
| Sorting.MapPermutation | ecs_util.go:106-147 | rendering the elements of two permutations gives permutations |
| Normalize.ToNumberCPU | ecs_util.go:225-235 | the CPU size changes only when "vcpu" occurs after position 0 (case-insensitive); when its first occurrence is after position 0, the result is nil exactly when the trimmed text before it does not parse, and otherwise that number in 1024ths written in decimal |
| Normalize.ToNumberMemory | ecs_util.go:237-247 | the memory size changes only when "GB" occurs after position 0; when its first occurrence is after position 0, the result is nil exactly when the trimmed text before it does not parse, and otherwise that number in 1024ths written in decimal |
| Normalize.UnitAtStartIsKept | ecs_util.go:226-238 | a unit at position 0 leaves the size unchanged (the `i > 0` test) |
| Normalize.ToNumberIdempotent | ecs_util.go:225-247 | converting a converted size changes nothing |
| Normalize.ServiceDefaults | ecs_util.go:163-184 | the defaults filled: LATEST for Fargate; 200/100 with no strategy; 100/0 for DAEMON; none for REPLICA; grace 0 with load balancers; public IP DISABLED |
| Normalize.ServiceSetValuesKept | ecs_util.go:163-184 | values already set are kept, and fields the normaliser does not touch are unchanged |
| Normalize.ServiceListsSorted | ecs_util.go:157-191 | placement constraints and strategies, security groups and subnets come out ordered and as permutations of the input |
| Normalize.NormalizeServiceIdempotent | ecs_util.go:156-194 | normalising a normalised service changes nothing |
| Normalize.NormalizeNetworkIgnoresOrder | ecs_util.go:181-193 | the order of security groups and subnets does not affect the normalised network |
| Normalize.DiffServiceIgnoresOrder | deploy.go:195-209 | two services that differ only in list order diff alike |
| Normalize.DiffServiceIgnoresIdentity | deploy.go:195-221 | the name, ARN, cluster, status, task definition and count never show in a service diff |
| Normalize.DiffServiceFillsDefaults | deploy.go:195-209 | with no scheduling strategy, an absent deployment configuration diffs like the 200/100 default |
| Normalize.ContainerCpuFilled | ecs_util.go:197-216 | every normalised container has a CPU, and the containers are a permutation of the normalised originals |
| Normalize.ContainerCpuKept | ecs_util.go:198-200 | a container's CPU is kept, and is 0 when unset |
| Normalize.NormalizeContainerIdempotent | ecs_util.go:197-209 | normalising a normalised container changes nothing |
| Normalize.NormalizedContainersStable | ecs_util.go:197-216 | normalising a permutation of normalised containers gives it back |
| Normalize.SizesStable | ecs_util.go:217-222 | converting the normalised CPU and memory again changes nothing |
| Normalize.NormalizeTaskDefinitionIdempotent | ecs_util.go:196-223 | normalising a normalised task definition changes nothing |
| Normalize.NormalizeContainerIgnoresOrder | ecs_util.go:201-208 | the order of environment, mount points, port mappings, volumes-from and secrets does not affect a normalised container |
| Normalize.DiffTaskDefinitionIgnoresOrder | deploy.go:179-193 | two task definitions that differ only in list order diff alike |
| Normalize.ReorderedContainers | ecs_util.go:197-216 | reordering the containers reorders the normalised containers |
| Normalize.ReorderedWithinContainers | ecs_util.go:197-209 | containers that differ only inside their lists normalise alike |
| Normalize.DiffTaskDefinitionIgnoresAssigned | deploy.go:179-193 | the ARN, revision and status that ECS assigns never show in a task-definition diff |
| EcsUtil.ArnToName | ecs_util.go:28-31 | the name is the longest suffix of the ARN without '/' |
| EcsUtil.ArnToNameUnique | ecs_util.go:28-31 | that suffix is the only one with those properties |
| EcsUtil.ArnToNameAfterSlash | ecs_util.go:28-31 | the name of `prefix/name` is `name` |
| EcsUtil.Chunk | ecs_util.go:47-56 | a line splits into `len/chars + 1` chunks that concatenate back; all but the last have `chars` elements and the last has the rest |
| EcsUtil.FormatEvent | ecs_util.go:42-57 | the chunks concatenate to the UTF-8 bytes of time, " \t" and message; there are `len/chars + 1` of them with `len` in bytes, all but the last `chars` bytes wide |
| EcsUtil.FormatLogEvent | ecs_util.go:59-76 | the chunks concatenate to the UTF-8 bytes of prefix, time stamp, " \t" and message; there are `len/chars + 1` of them with `len` in bytes, all but the last `chars` bytes wide |
| EcsUtil.WiderInBytes | ecs_util.go:49-55 | a line with a non-ASCII character has more bytes than characters, so the chunking measures it in bytes |
| EcsUtil.TdToRegisterTaskDefinitionInput | ecs_util.go:78-92 | the register input carries the family and containers of the definition |
| EcsUtil.RegisterInputDeterminesDefinition | ecs_util.go:78-92 | two definitions register alike exactly when they differ only in ARN, revision and status |
| EcsUtil.SrvToUpdateServiceInput | ecs_util.go:94-104 | the update input leaves the service, cluster, task definition, count and force flag unset |
| EcsUtil.UpdateInputDeterminesAttributes | ecs_util.go:94-104 | two services give the same input exactly when they agree on the seven updatable attributes |
| EcsUtil.UpdateServiceTaskInput | ecs_util.go:280-305 | the input addresses the service in the cluster, sets the task definition, count and force flag, and nothing else |
| EcsUtil.UpdateServiceAttributesInput | ecs_util.go:263-278 | the input addresses the service, keeps its task definition and count, and carries the updatable attributes |
| EcsUtil.EqualString | ecs_util.go:149-154 | nil equals only "", otherwise the strings are compared |
| EcsUtil.GetLogInfo | ecs_util.go:479-492 | succeeds exactly when the log configuration, name, stream prefix and group exist; gives the group and a stream ending in the task ID |
| EcsUtil.LogStreamParts | ecs_util.go:479-492 | the stream splits into prefix, container name and task ID |
| EcsUtil.FirstNamed | ecs_util.go:603-612 | the index of the first container with the watched name, or none |
| EcsUtil.ContainerStatus | ecs_util.go:614-623 | a container fails exactly on a non-zero exit code or a stop reason |
| EcsUtil.DescribeTaskStatus | ecs_util.go:593-624 | the loop reports `TaskStatus` of the describe result |
| EcsUtil.TaskStatusContainer | ecs_util.go:593-624 | the reported container is the first one with the watched name |
| EcsUtil.TaskStatusSucceeds | ecs_util.go:593-624 | a task succeeds exactly when its reported container exited 0 (or has no code) and has no reason |
| EcsUtil.NextCursor | ecs_util.go:542-544 | an empty batch keeps the cursor |
| EcsUtil.CursorPassesBatch | ecs_util.go:542-544 | after an ascending batch the cursor is past every event of it, so none is shown twice |
| Listing.Family | ecs_util.go:639 | the family is the ARN's name up to the first ':' |
| Listing.FamilyOfArn | ecs_util.go:639 | `…/family:revision` has family `family` |
| Listing.ScanPage | ecs_util.go:656-663 | the page loop computes `Scan` |
| Listing.AsWrittenWrapsToNewest | ecs_util.go:636-665 | as written, rolling back from the oldest revision returns the newest |
| Listing.AsWrittenSingleRevisionIsItself | ecs_util.go:636-665 | as written, a single revision rolls back to itself |
| Listing.AsWrittenAbsentNeverEnds | ecs_util.go:636-665 | as written, a current ARN that is not listed never ends the search |
| Listing.FindRollbackTarget | ecs_util.go:636-665 | the method computes `Search` over the pages of the family |
| Listing.RollbackTargetIsNext | ecs_util.go:636-665 | succeeds exactly when the current ARN is listed and not last, and returns the ARN listed right after it |
| Listing.OldestHasNoTarget | ecs_util.go:636-665 | the oldest revision has no rollback target |
| Listing.FindLastTaskDefinition | ecs_util.go:667-686 | the newest ARN of the family before the first ':', an error when the first page is empty |
| Client.Call | ecs_util.go:249-634 | a mutating or waiting call is appended to the log, and fails exactly when its outcome is an error |
| Deploy.Issue | deploy.go:223-301 | a call is appended to the log and fails exactly when its outcome does, with the ARN map kept |
| Deploy.RegisterInput | deploy.go:229-261 | the input is named with the full name and carries the configured containers |
| Deploy.RegisterOne | deploy.go:231-260 | registers one definition (a dry run only reads the newest revision) and records its ARN under the logical name |
| Deploy.RegisterTaskDefinitions | deploy.go:229-261 | the loop computes `Registered` |
| Deploy.RegisteredLog | deploy.go:229-261 | on success, one registration per name in iteration order, nothing else |
| Deploy.RegisteredKeys | deploy.go:229-261 | on success, every task definition name has an ARN |
| Deploy.LogGroupOf | deploy.go:24-34 | a container names a group exactly when it uses awslogs with a group, and crashes on a nil driver or a missing group |
| Deploy.CollectLogGroups | deploy.go:24-34 | the loop computes `GroupsAcross` |
| Deploy.GroupsInExact | deploy.go:24-34 | the groups of containers are exactly those named, and a crash happens exactly when some container crashes |
| Deploy.LogGroupsExact | deploy.go:24-34 | the groups collected are exactly the groups the definitions declare |
| Deploy.EnsureLogGroup | deploy.go:36-59 | a group is created exactly when it is not described and this is not a dry run |
| Deploy.CreateLogGroupIfNotExist | deploy.go:23-61 | the method computes `LogGroupsCreated` |
| Deploy.CreateAbsent | deploy.go:69-94 | an absent service is created under its full name from its configured definition with its registered task definition, failing exactly when that call fails; an unknown reference fails without a call |
| Deploy.RecreateInactive | deploy.go:95-128 | only an INACTIVE service is deleted and then created again, from its configured definition under its own name |
| Deploy.RecreateOneLog | deploy.go:95-128 | outside a dry run, a successful step issues exactly a forced delete and a create from the configured definition with the registered ARN for an INACTIVE service, and nothing for another |
| Deploy.RecreatedLog | deploy.go:95-128 | outside a dry run, a successful loop issues exactly, in order, the delete and create of each INACTIVE service and nothing else |
| Deploy.CreateServiceIfNotExist | deploy.go:63-130 | the method computes `ServicesCreated` |
| Deploy.CreateAbsentServices | deploy.go:69-94 | the loop computes `CreatedAbsent` |
| Deploy.RecreateInactiveServices | deploy.go:95-128 | the loop computes `Recreated` |
| Deploy.AbsentAllCreated | deploy.go:69-94 | on success, every absent service was created |
| Deploy.DryRunAttributesAsWritten | deploy.go:150-174 | the dry-run attribute diff as written, indexing `o.Services[0]` |
| Deploy.DryRunAttributes | deploy.go:150-174 | the dry-run attribute diff issues nothing and fails only when the describe fails |
| Deploy.DryRunOfNewServiceCrashes | deploy.go:159 | for a service ECS does not have yet, the as-written diff crashes and the corrected one goes on |
| Deploy.UpdateOne | deploy.go:132-177 | one task update per service, then the attribute update when asked; an unknown reference fails first |
| Deploy.UpdateServices | deploy.go:132-177 | the loop computes `Updated` |
| Deploy.AllServicesUpdated | deploy.go:136-148 | on success, every service got its task update |
| Deploy.OnlyTaskUpdates | deploy.go:150-174 | without `--update-service`, only task updates are issued |
| Deploy.ServiceNames | deploy.go:270-276 | the full names of the services, in iteration order |
| Deploy.Deploy | deploy.go:223-301 | the method issues exactly the calls of `DeployPlan` and returns its error |
| Deploy.DeployServices | deploy.go:271-295 | the service part computes `ServiceStage`: describe and create, update, then wait |
| Deploy.DeployPhasesInOrder | deploy.go:223-301 | registrations, then log groups, then service creation, then updates, then the wait |
| Deploy.DryRunIssuesNothing | deploy.go:223-301 | a dry run issues no mutating call |
| Deploy.ServiceStageShape | deploy.go:271-295 | the service stage appends creations, then updates, then the wait, keeps the ARNs, and issues nothing in a dry run |
| Deploy.ServiceStageUpdates | deploy.go:279-287 | outside a dry run, a successful service stage updated every configured service with the registered ARNs |
| Deploy.WaitGated | deploy.go:288-293 | the wait is issued only when there are services and it is neither a dry run nor no-wait, and then it is the last call |
| Deploy.DeployUpdatesEveryService | deploy.go:223-301 | a successful deploy updates every configured service to its registered ARN |
| Rollback.RollbackOne | rollback.go:36-60 | a service whose target is missing stops the rollback; otherwise one update to the target |
| Rollback.DeregisterOne | rollback.go:76-88 | deregisters the service's current definition, or nothing in a dry run |
| Rollback.Rollback | rollback.go:20-93 | the method issues exactly the calls of `RollbackPlan` |
| Rollback.UpdateAll | rollback.go:36-60 | the loop computes `RolledBack` |
| Rollback.DeregisterAll | rollback.go:75-90 | the loop computes `Deregistered` |
| Rollback.RolledBackLog | rollback.go:36-60 | on success, one update per described service, in order, each to its target |
| Rollback.RolledBackUpdates | rollback.go:36-60 | a successful update loop appends exactly the rollback updates of the services, in order |
| Rollback.DeregisteredLog | rollback.go:75-90 | a successful deregister loop appends exactly the deregistrations of the described revisions, in order |
| Rollback.BlockedAborts | rollback.go:38-41 | a service without a rollback target makes the rollback fail |
| Rollback.DryRunRollbackIssuesNothing | rollback.go:45-80 | a dry run issues no call |
| Rollback.NoWaitStopsAfterUpdates | rollback.go:62-65 | with no-wait, only the updates are issued |
| Rollback.MissingTargetAborts | rollback.go:36-60 | a missing target fails the rollback, with only updates issued before it |
| Rollback.RollbackSequence | rollback.go:36-90 | on success: the updates, then the wait, and nothing more without deregistration |
| Rollback.RollbackDeregisters | rollback.go:75-90 | with deregistration, after the wait each rolled-back definition is deregistered, in order |
| Run.NamedAt | run.go:28-34 | the first container with the name, none, or a crash on an earlier nil name |
| Run.ContainerOf | run.go:24-35 | the loop computes `SelectContainer` |
| Run.ContainerOfUnnamed | run.go:25-27 | with no name, the first container |
| Run.ContainerOfNamed | run.go:28-33 | the first container with the name |
| Run.ContainerOfAbsent | run.go:34 | no container when none has the name |
| Run.Run | run.go:37-124 | the method issues exactly the calls of `RunPlan` |
| Run.ChooseTaskDefinition | run.go:58-82 | the method computes `Source`: registered from the file with a path, the service's current definition without |
| Run.LaunchTask | run.go:74-124 | the method computes `Launch`: container, overrides, RunTask, wait, status |
| Run.UndefinedServiceFirst | run.go:44-46 | an undefined service fails before any call |
| Run.SourceLog | run.go:58-82 | a task definition is registered only when a path is given |
| Run.FinishLog | run.go:110-118 | the wait is issued unless no-wait |
| Run.LaunchLog | run.go:105-118 | RunTask with the chosen ARN, then the wait unless no-wait |
| Run.RunLogShape | run.go:37-124 | the calls are the registration (with a path), RunTask, then the wait (unless no-wait), in that order |
| Run.LaunchInput | run.go:86-108 | RunTask gets the service's settings, the count and the overrides; a command replaces the container overrides with one for the container |
| Run.RunTaskDefinition | run.go:58-105 | the task runs the registered definition with a path, the service's current one without |
| Run.MalformedOverridesStop | run.go:88-93 | malformed overrides fail before RunTask |
| Logs.FirstSuffix | logs.go:23-29 | the first unit that is a suffix, or "" when none is |
| Logs.FindUnit | logs.go:23-29 | the loop computes `FirstSuffix` |
| Logs.ParseStartTime | logs.go:22-50 | the method computes `StartTimeOf` |
| Logs.UnitIsLastChar | logs.go:20-29 | a unit is found exactly when the last character is m, h or d |
| Logs.ReadsCount | logs.go:33-34 | `<n><unit>` reads the unit and the number n |
| Logs.MinutesBack | logs.go:40-41 | `<n>m` is n minutes before now |
| Logs.HoursBack | logs.go:42-43 | `<n>h` is n hours before now |
| Logs.DaysBack | logs.go:44-45 | `<n>d` is n days before now |
| Logs.UnknownUnitFails | logs.go:49 | other formats are rejected |
| Logs.BadNumberFails | logs.go:34-37 | a count that does not parse is rejected |
| Logs.StartOf | logs.go:53-62 | now when no start time is given, the parsed time otherwise |
| Logs.ShowStreams | logs.go:95-105 | the loop computes `StreamsFrom` |
| Logs.StreamsPrefixed | logs.go:95-98 | one stream per task, in order, prefixed `[<task ID>] `, from the start time, in the container's group |
| Logs.Logs | logs.go:52-115 | the method computes `LogsPlan` |
| Logs.UndefinedServiceFails | logs.go:70-72 | an undefined service fails |
| Cli.ParseParams | cmd/ecsceed/deploy.go:48-55 | the loop computes `ParamsFrom` |
| Cli.KeyAndValue | cmd/ecsceed/deploy.go:50-54 | an option is well formed exactly when it has '='; the key is the text before the first '=' and the value runs to the next '=' |
| Cli.KeyValueOfJoin | cmd/ecsceed/deploy.go:50-54 | `k=v` gives key k and value v when neither has '=' |
| Cli.FirstBadAborts | cmd/ecsceed/deploy.go:51-53 | the first malformed option aborts with an error naming it |
| Cli.ParsedWellFormed | cmd/ecsceed/deploy.go:51-53 | a successful parse read only well-formed options |
| Cli.ParsedKeys | cmd/ecsceed/deploy.go:49-55 | the keys parsed are the keys of the options |
| Cli.LastWins | cmd/ecsceed/deploy.go:54 | a repeated key keeps the value of its last option |

## Left out

- Config.LoadConfigStack: takes a fuel bound on the number of files read. Past it, the result is `ChainTooLong`, whereas the source loops forever on a `base` cycle.
- Sorting.SortByKey: is a stable insertion sort, while `sort.Slice` is not stable. The order-insensitivity lemmas therefore require a key that tells the elements apart.
- Normalize.ToNumberCPU: the float scaling `int(ns*1024)` is a parameter, because floating point is not modelled.
- Normalize.ToNumberMemory: the float scaling `int(ns*1024)` is a parameter, because floating point is not modelled.
- Logs.Logs: does not model tail mode (`--tail`). It is concurrent and runs until cancelled.
- Logs.Logs: does not model the display of events, which is I/O.
- Logs.ParseStartTime: `time.Time.Add` is unbounded addition on nanoseconds. The duration product does wrap at 64 bits, as the source's does.
- Run.Run: in the wait, the log streaming goroutine is left out. Only the call that waits for the task to stop is modelled.
- Rollback.Rollback: always sends `forceNewDeployment = false`, as the source does. The `ForceNewDeployment` option is unused in the source.
- Rollback.Rollback: the fixed sleep before the wait is left out.
- Deploy.Deploy: the text diff itself is not modelled. The model states what the normalised sides of the diff are.
- Deploy.Deploy: the printing of a dry run is not modelled.
- Waiting for stable services: the ticker that reports deployments is not modelled. It only prints.
- Reading files, rendering templates and parsing JSON or YAML are opaque functions of the inputs. Decoding a task-definition document into the value built so far is modelled.
- `DescribeLogGroups` sends a name prefix and a limit of 1. The model's `describeLogGroups(g)` answers "does group g exist".
- Error messages are not wrapped as the source wraps them. Each error keeps only its kind and the key value.
- Run and Logs describe the service by the name as given, not by its full name, as the source does.
- app.go, which holds `resolveFullName`, `resolveKeyName` and `ResolveConfigStack`, is not part of this model. Their results are inputs.
- The following are not part of this model:
  - delete.go and status.go;
  - the duplicates in ecs.go;
  - the merge library;
  - cwl_util.go;
  - the other commands under cmd/ecsceed.
- Resolve.DecodeInto: only the `containerDefinitions` list is merged by position. The other lists, the lists inside a container, `logConfiguration` with its options map, and `proxyConfiguration` are replaced whole when the document mentions them, whereas Go's decoder merges into them too. A JSON `null` element of the container array, which Go decodes to a nil pointer, is not modelled. The rows Resolve.DecodeIntoField, Resolve.DecodeContainerField, Resolve.DecodeCompleteDoc, Resolve.DecodeTwice, Resolve.DecodeContainerTwice, Resolve.DecodeTaskDefinition, Resolve.BaseThenFile, Resolve.BaseThenFileContainer and Resolve.DecodedContainer inherit this.
- Listing.FindRollbackTarget: stops after the last page, where the source's loop starts over at the first page. For the oldest revision the model fails with no target, whereas the source returns the newest revision. For an ARN not listed the model fails, whereas the source never returns. The as-written loop is `Listing.FindRollbackTargetAsWritten` (see "## Findings").
- Rollback.RollbackOne: takes its target from the corrected search. For a service on the oldest revision of its family the model stops the rollback, whereas the source rolls it forward to the newest revision. For a current ARN not listed, the model stops, whereas the source hangs.
- Rollback.Rollback: composes Rollback.RollbackOne, so it differs from the source on the same inputs. The rows Rollback.Rollback and Rollback.UpdateAll (through its specification `RolledBack`) inherit this.
- Deploy.UpdateOne: uses the corrected dry-run diff. In a dry run with `UpdateService` set for a service ECS does not have yet (reachable only by calling `App.Deploy` directly, since the `deploy` command of cmd/ecsceed/deploy.go has no dry-run flag and never sets `DeployOption.DryRun`), the model goes on, whereas the source panics on `o.Services[0]`.
- Deploy.Deploy: composes Deploy.UpdateOne, so it differs from the source on the same input. The rows Deploy.Deploy, Deploy.UpdateServices (through its specification `Updated`) and Deploy.DeployServices (through its specification `ServiceStage`) inherit this.
- Normalize.ToNumberCPU: searches for "vcpu" in the ASCII lower-casing of the size (`Text.ToLower`). Go's `strings.ToLower` also folds non-ASCII letters.
- Ecs.ApiFailure: the model's `arn` and `reason` are plain strings. The `*d.Arn` dereference at deploy.go:70 and the `*f.Reason` dereferences at ecs_util.go:471 and ecs_util.go:600 cannot crash in the model, whereas a nil `Arn` or `Reason` would panic in the source.
- Ecs.Container: the model's `name` is a plain string. The `*c.Name` dereference at ecs_util.go:605 (and the `*container.Name` in the messages after it) cannot crash in the model, whereas a nil `Name` would panic in the source.
- Ecs.Task: the model's `taskArn` is a plain string. The `*task.TaskArn` dereferences at ecs_util.go:475 and ecs_util.go:480 cannot crash in the model, whereas a nil `TaskArn` would panic in the source.
- Ecs.LogConfiguration: the values of `options` are plain strings, so an option key is either absent (the model's stand-in for a nil pointer, which crashes as in the source) or holds a string. A key present with a nil value, as a config with `"awslogs-group": null` decodes to, cannot be represented: the source panics on it at deploy.go:31 and ecs_util.go:483-486, and the model has no such input.
- The in-place aliasing of sorting a service's slices during a dry-run diff is not modelled. The model sorts copies.

## Findings

| source | as written | input that shows it | evidently intended | confidence | as-written member | corrected member |
|---|---|---|---|---|---|---|
| ecs_util.go:636-665 | after the last page `NextToken` is nil again, so the loop starts over at the first page | a family listed as td:3, td:2, td:1 with current td:1 returns td:3; a current ARN not listed never ends | no target for the oldest revision; an error for an unlisted one | not executed | Listing.AsWrittenWrapsToNewest | Listing.RollbackTargetIsNext |
| deploy.go:159 | a dry run with `UpdateService` set (reachable only through `App.Deploy` called directly: the `deploy` command never sets `DryRun`) reads `o.Services[0]` even when the service comes back as a failure entry | a first deploy of a service ECS does not have yet: the only result is a failure entry, so the list is empty | skip the attribute diff for a service that does not exist yet | not executed | Deploy.DryRunOfNewServiceCrashes | Deploy.DryRunAttributes |
