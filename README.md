# dalil task service, modelled in Dafny

dalil is a small HTTP service that manages tasks. This project models its
core:

- the in-memory task repository (`memoryRepository`), which keeps a map of
  tasks keyed by id and an id counter;
- the service layer and the DTOs (data transfer objects) between the HTTP
  API and the repository;
- the request-scoped path parameter cells and the validating middleware
  that installs them;
- the small parsers around them: query flags, integer parameters with a -1
  sentinel, the error-response message rules, and the `KEY=INT,...`
  configuration pairs.

The code is modelled in the form it has:

- The repository, the path parameter cell and the service are classes whose
  methods update their fields in place.
- Pure decisions are functions.
- Loops stay loops. Each loop is proved against a specification.

The repository is also described as a state machine over values (module
`TaskStore`), with one transition per operation. `Repository.MemoryRepository`
is proved to perform exactly those transitions. Lemmas over sequences of
operations then state the per-id life cycle:

- ids are never reused;
- for an id below the counter, the creation time never changes;
- a removed id below the counter never comes back.

The last two hold only for ids the counter has already passed. `Insert` does
not check whether its key is taken. So a task preloaded with `WithTasks` under
the counter's current value, or above it, is overwritten by a later `Insert`,
and the new task gets a new creation time.

Files and modules:

| file | module | models |
|---|---|---|
| `wrappers.dfy` | `Wrappers` | `Option` and the two repository errors `ErrNotFound` and `ErrNotModified` |
| `strings.dfy` | `Strings` | `strings.TrimSpace`, `ToLower` (ASCII) and `Split`/`Join` on one character |
| `strconv.dfy` | `Strconv` | `strconv.Atoi` (64-bit), `Itoa` and `ParseBool` |
| `sorting.dfy` | `Sorting` | `sort.Ints` as the sorted permutation; the distinctness lemmas |
| `entity.dfy` | `Entity` | the `Task` and `Status` records; time as an abstract integer |
| `task_store.dfy` | `TaskStore` | the repository as a state machine over values |
| `repository.dfy` | `Repository` | `memoryRepository` as a class |
| `reqctx.dfy` | `RequestContext` | the `PathParam` cell and the context map |
| `error_response.dfy` | `ErrorResponse` | the JSON error body |
| `urlparams.dfy` | `UrlParams` | the path and query readers |
| `params.dfy` | `CommonParams` | the older readers with the -1 sentinel |
| `middleware.dfy` | `Middleware` | the path parameter middleware |
| `task_model.dfy` | `TaskModel` | the task DTOs |
| `service.dfy` | `Service` | the task service |
| `config.dfy` | `Config` | the application configuration |

The model keeps these behaviours of the code:

- An update that changes nothing returns a zero task with `ErrNotModified`.
  It does not return the stored record.
- The built-in `[0-9]+` pattern is matched unanchored. It accepts any
  non-empty value that holds a digit, including values that are not integers.
- `GetAll` sorts the tasks' own `Id` fields and then looks each one up by
  key. The result is "every task, by ascending id" only when each task is
  stored under its own id.
- `RemoveByIds` stops at the first missing id. Removals made before it stay
  done.
- `http.StatusText` follows Go's table, whose names for 413, 414, 416 and 422
  are older than those of section 15 of RFC 9110 ("Request Entity Too Large"
  rather than "Content Too Large", and so on).

## Model

| member | source | states |
|---|---|---|
| `TaskStore.InsertStep` | internal/pkg/tasks/dao/repository.go:72-78 | Insert gives the task the current counter as id and `now` as both timestamps; the counter grows by exactly one; the task is stored under that id and every other key keeps its task; on a valid store the id was free and the store stays valid |
| `TaskStore.UpdateStep` | internal/pkg/tasks/dao/repository.go:80-96 | an absent id gives `ErrNotFound` and no change; unchanged name, status id and description give `ErrNotModified` with a zero task and no change; otherwise success exactly, with the previous record returned, the stored creation time kept, `now` as update time and other keys untouched; validity preserved |
| `TaskStore.RemoveStep` | internal/pkg/tasks/dao/repository.go:98-105 | success exactly when the id is present; then the record is returned and only that key is deleted; otherwise `ErrNotFound` with a zero task and no change; the counter never moves |
| `TaskStore.RemoveAllStep` | internal/pkg/tasks/dao/repository.go:107-117 | the batch keeps the counter; it only ever deletes existing entries; an error returns no records; a success returns one record per id |
| `TaskStore.FirstMiss` | internal/pkg/tasks/dao/repository.go:109-113 | the number of ids removed before the first miss is at most the batch length |
| `TaskStore.RemoveAllStopsAtFirstMiss` | internal/pkg/tasks/dao/repository.go:107-117 | a batch deletes exactly the ids before its first miss, and those removals stay done on failure; it succeeds exactly when there is no miss; it then returns the removed records in input order |
| `TaskStore.RemoveFirstThenRest` | internal/pkg/tasks/dao/repository.go:109-114 | deleting the first id and then the next `n` is deleting the first `1 + n` |
| `TaskStore.CounterCountsInserts` | internal/pkg/tasks/dao/repository.go:72-117 | after any sequence of operations the counter has grown by exactly the number of inserts |
| `TaskStore.RunAppend` | internal/pkg/tasks/dao/repository.go:72-117 | running two operation sequences one after the other is running their concatenation |
| `TaskStore.StepCounter` | internal/pkg/tasks/dao/repository.go:73 | one operation moves the counter by one on Insert and leaves it otherwise |
| `TaskStore.IdsNeverReused` | internal/pkg/tasks/dao/repository.go:72-117 | the ids the inserts of any operation sequence assign are strictly increasing, at least the starting counter and below the final counter |
| `TaskStore.PrependBelow` | internal/pkg/tasks/dao/repository.go:73 | an id below every id of an ascending run extends it and stays in range |
| `TaskStore.StepKeepsValid` | internal/pkg/tasks/dao/repository.go:72-117 | every operation keeps every task under its own id and every id below the counter |
| `TaskStore.StepKeepsCreation` | internal/pkg/tasks/dao/repository.go:72-117 | for an id below the counter, one operation never brings back an absent task and never changes a surviving task's creation time |
| `TaskStore.CreationTimeIsStable` | internal/pkg/tasks/dao/repository.go:72-117 | a task whose id is below the counter before an operation sequence, and that is present after it, was present before, with the same creation time |
| `TaskStore.NoResurrection` | internal/pkg/tasks/dao/repository.go:98-117 | an id below the counter that holds no task stays empty whatever follows |
| `Repository.MemoryRepository.constructor` | internal/pkg/tasks/dao/repository.go:27-48 | the repository starts with counter 0 and the map of the last non-nil `WithTasks` with a non-nil map, else the empty map |
| `Repository.MemoryRepository.GetById` | internal/pkg/tasks/dao/repository.go:50-56 | the stored task with no error, or a zero task with `ErrNotFound`; the repository is not modified |
| `Repository.MemoryRepository.CollectIds` | internal/pkg/tasks/dao/repository.go:59-63 | one id per stored task, read from the tasks reached by visiting each key once in an unspecified order |
| `Repository.MemoryRepository.GetAll` | internal/pkg/tasks/dao/repository.go:58-70 | no error and one entry per stored task, each a stored task or a zero task; when every task sits under its own id, exactly the stored tasks, each the one stored under its id, in strictly ascending id order |
| `Repository.GetAllWhenKeysMatchIds` | internal/pkg/tasks/dao/repository.go:61-67 | when keys match ids, sorting the collected ids and looking each up yields every stored task once, by strictly ascending id |
| `Repository.HasKey` | internal/pkg/tasks/dao/repository.go:66 | every stored task is stored under some key |
| `Repository.MemoryRepository.Insert` | internal/pkg/tasks/dao/repository.go:72-78 | the fields and the result are exactly `TaskStore.InsertStep` of the old fields |
| `Repository.MemoryRepository.Update` | internal/pkg/tasks/dao/repository.go:80-96 | the fields and the result are exactly `TaskStore.UpdateStep` of the old fields |
| `Repository.MemoryRepository.RemoveById` | internal/pkg/tasks/dao/repository.go:98-105 | the fields and the result are exactly `TaskStore.RemoveStep` of the old fields |
| `Repository.MemoryRepository.RemoveByIds` | internal/pkg/tasks/dao/repository.go:107-117 | the loop of single removals performs exactly `TaskStore.RemoveAllStep` of the old fields |
| `RequestContext.PathParam.constructor` | internal/pkg/context/request/attributes.go:56 | a fresh cell holds the text and an empty cache |
| `RequestContext.PathParam.String` | internal/pkg/context/request/attributes.go:20-22 | the raw text, verbatim |
| `RequestContext.PathParam.Int` | internal/pkg/context/request/attributes.go:24-42 | a cached value comes back unchanged without parsing; a miss that `Atoi` rejects gives 0 and `ErrNotFound` and caches nothing; a miss it accepts caches and returns that value; the text never changes and a coherent cache stays coherent |
| `RequestContext.SetPathParam` | internal/pkg/context/request/attributes.go:44-57 | the key's cell holds the new text with an empty cache; a present key keeps its cell, is updated in place and the same context comes back; otherwise a fresh cell is added and every earlier key is still carried; a nil context counts as empty; other keys' cells keep their text and cache |
| `RequestContext.GetPathParam` | internal/pkg/context/request/attributes.go:59-70 | a fresh copy of the stored cell (same text and cache); a zero cell and `ErrNotFound` for a nil context or a missing key |
| `RequestContext.ResetKeyScenario` | internal/pkg/context/request/reqctx_test.go:95-127 | setting a present key again returns the same context, and reading through it gives the new text's integer (127, then 10) |
| `Strings.TrimSpace` | internal/pkg/model/error/response.go:20 | the result is the input with only white space (Go's `unicode.IsSpace`) removed from both ends, and neither of its ends is white space |
| `Strings.TrimSpaceOfTrimmed` | internal/pkg/config/config.go:171 | trimming a string that has no white space at either end leaves it as it is |
| `Strings.BlankTrimsToEmpty` | internal/pkg/model/error/response.go:20-21 | a string trims to "" exactly when it is all white space |
| `Strings.ToLower` | internal/pkg/common/params.go:36 | same length; the ASCII capitals lowered, every other character kept, and no ASCII capital left |
| `Strings.Split` | internal/pkg/config/config.go:166 | one more piece than separators, none containing the separator |
| `Strings.JoinSplit` | internal/pkg/config/config.go:148 | joining the pieces of a split gives the string back |
| `Strings.SplitJoin` | internal/pkg/config/config.go:148 | splitting a join of separator-free pieces gives the pieces back |
| `Strings.SplitWithoutSeparator` | internal/pkg/config/config.go:166 | a string without the separator splits into itself |
| `Strings.SplitAround` | internal/pkg/config/config.go:166 | splitting `a + sep + b`, with `a` free of the separator, gives `a` followed by the pieces of `b` |
| `Strconv.Atoi` | internal/pkg/config/config.go:139 | an accepted text gives a value within the 64-bit range |
| `Strconv.AtoiItoa` | internal/pkg/config/config.go:176 | every 64-bit integer's decimal text parses back to it |
| `Strconv.AtoiHasDigit` | internal/pkg/middleware/path_param.go:19 | every text `Atoi` accepts contains a digit |
| `Strconv.AtoiIgnoresCase` | internal/pkg/common/params.go:36 | lower-casing never changes what `Atoi` reads |
| `Strconv.AtoiAcceptsSignsAndDigits` | internal/pkg/common/params.go:36 | an accepted text holds only digits and signs |
| `Strconv.ContainsDigit` | internal/pkg/middleware/path_param.go:19 | true exactly when some character is an ASCII digit |
| `Strconv.NatDigits` | internal/pkg/config/config.go:176 | non-empty digits without a leading zero, whose value is the number |
| `Strconv.ParseBool` | internal/pkg/urlparams/params.go:28 | only a non-empty text is accepted |
| `Strconv.ParseBoolLowered` | internal/pkg/urlparams/params.go:28-34 | after lower-casing, exactly "1", "t" and "true" read as true and exactly "0", "f" and "false" as false |
| `Sorting.InsertSorted` | internal/pkg/tasks/dao/repository.go:64 | inserting into a sorted sequence keeps it sorted and adds exactly that element |
| `Sorting.SortInts` | internal/pkg/tasks/dao/repository.go:64 | `sort.Ints` yields an ascending permutation of its input |
| `Sorting.DistinctCounts` | internal/pkg/tasks/dao/repository.go:61-64 | a sequence without repetitions holds each value at most once |
| `Sorting.RepeatedCountsTwice` | internal/pkg/tasks/dao/repository.go:61-64 | a repeated value counts at least twice |
| `Sorting.PermutationKeepsDistinct` | internal/pkg/tasks/dao/repository.go:64 | sorting ids without repetitions keeps them without repetitions |
| `Sorting.SortedDistinctIsStrict` | internal/pkg/tasks/dao/repository.go:64-67 | sorted without repetitions is strictly ascending |
| `ErrorResponse.StatusText` | internal/pkg/model/error/response.go:22 | Go's reason phrase for the code, "" when Go knows none; a phrase never starts or ends with white space |
| `ErrorResponse.InformationalText` | internal/pkg/model/error/response.go:22 | the 1xx phrases |
| `ErrorResponse.SuccessfulText` | internal/pkg/model/error/response.go:22 | the 2xx phrases |
| `ErrorResponse.RedirectionText` | internal/pkg/model/error/response.go:22 | the 3xx phrases |
| `ErrorResponse.ClientErrorText` | internal/pkg/model/error/response.go:22 | the 4xx phrases |
| `ErrorResponse.ClientErrorTextLow` | internal/pkg/model/error/response.go:22 | the phrases of 400 to 415 |
| `ErrorResponse.ClientErrorTextHigh` | internal/pkg/model/error/response.go:22 | the phrases of 416 to 451 |
| `ErrorResponse.ServerErrorText` | internal/pkg/model/error/response.go:22 | the 5xx phrases |
| `ErrorResponse.Message` | internal/pkg/model/error/response.go:20-23 | the message has no white space at either end; it is the trimmed argument whenever that is not blank, whether or not the code is known; a blank argument gives `StatusText(code)`; it is empty exactly when the argument is blank and the code has no phrase |
| `ErrorResponse.New` | internal/pkg/model/error/response.go:19-38 | the code unchanged, the message of `Message`, and the time of construction overwritten by each non-nil clock option in order |
| `ErrorResponse.StampIsLastClock` | internal/pkg/model/error/response.go:31-46 | the last clock option decides the timestamp |
| `ErrorResponse.StampWithoutClock` | internal/pkg/model/error/response.go:24-35 | without a clock option the timestamp is the time of construction |
| `UrlParams.Has` | internal/pkg/urlparams/params.go:23 | true exactly when the key is present in the query, whatever its values |
| `UrlParams.Get` | internal/pkg/urlparams/params.go:18 | the first value of a query key, "" when it has none |
| `UrlParams.ParsePathParam` | internal/pkg/urlparams/params.go:13-15 | the matched segment, "" when absent |
| `UrlParams.ParseQueryParam` | internal/pkg/urlparams/params.go:17-19 | the first value of the key, or "" |
| `UrlParams.ParseQueryFlag` | internal/pkg/urlparams/params.go:21-35 | true exactly when the key is present with an empty value or one of "1", "t", "true" in any case; an absent key and any other value give false |
| `CommonParams.ToInt` | internal/pkg/common/params.go:35-41 | the value `Atoi` reads from the text, -1 when it reads none |
| `CommonParams.ToBool` | internal/pkg/common/params.go:43-49 | true exactly when the text is empty or a case-insensitive true spelling |
| `CommonParams.GetPathParamInt` | internal/pkg/common/params.go:15-17 | a missing parameter or one that is no number gives -1, a numeric one its value |
| `CommonParams.GetQueryParamInt` | internal/pkg/common/params.go:23-25 | an empty, missing or non-numeric value gives -1, a numeric one its value |
| `CommonParams.GetQueryParamBool` | internal/pkg/common/params.go:27-33 | false for an absent key, else `ToBool` of its first value |
| `CommonParams.QueryBoolAgreesWithFlag` | internal/pkg/common/params.go:27-49 | this reader and `UrlParams.ParseQueryFlag` agree on every request and key |
| `CommonParams.SentinelIsAmbiguous` | internal/pkg/common/params.go:37-40 | "-1" and "x" both read as -1, although only the first is a number |
| `Middleware.IsValid` | internal/pkg/middleware/path_param.go:45-62 | an empty value is rejected; a blank pattern accepts every other value; otherwise the value passes exactly when the trimmed pattern compiles and matches somewhere in it |
| `Middleware.PathParamContextString` | internal/pkg/middleware/path_param.go:26-27 | the middleware for that key and pattern |
| `Middleware.PathParamContextInt` | internal/pkg/middleware/path_param.go:22-24 | the string middleware with pattern `[0-9]+` |
| `Middleware.DigitRunIffDigit` | internal/pkg/middleware/path_param.go:19-55 | an unanchored `[0-9]+` matches exactly when the value holds a digit |
| `Middleware.IntMiddlewareAcceptsDigits` | internal/pkg/middleware/path_param.go:19-62 | the integer middleware accepts exactly the non-empty values holding a digit |
| `Middleware.IntMiddlewareLetsNonNumbersThrough` | internal/pkg/middleware/path_param.go:19-61 | "a1" passes the integer middleware, yet `Atoi` rejects it |
| `Middleware.IntMiddlewareAcceptsNumbers` | internal/pkg/middleware/path_param.go:19-61 | every text `Atoi` accepts passes the integer middleware |
| `Middleware.Serve` | internal/pkg/middleware/path_param.go:28-41 | an invalid value gives a 400 whose message is "<key> could not be retrieved", touches no cell and does not forward; a valid one is installed under the key by `SetPathParam` and the request is forwarded once with that context |
| `Middleware.RejectionNamesKey` | internal/pkg/middleware/path_param.go:33-34 | for a key that does not start with white space the message is exactly "<key> could not be retrieved" |
| `TaskModel.EntityToGetTaskResponse` | internal/pkg/tasks/model/task.go:18-27 | every response field is the entity's field of the same name |
| `TaskModel.ResponseIgnoresStatus` | internal/pkg/tasks/model/task.go:18-27 | two entities give the same response exactly when they differ at most in `Status` |
| `TaskModel.IsValid` | internal/pkg/tasks/model/task.go:36-40 | valid exactly when the request is not the all-zero one and its id agrees with the path id (both absent, or both present and equal) |
| `TaskModel.ToEntity` | internal/pkg/tasks/model/task.go:42-54 | the id (0 when absent), name, status id and description; zero timestamps and status |
| `TaskModel.ValidRequestCarriesPathId` | internal/pkg/tasks/model/task.go:36-54 | a request valid for a path id yields an entity with that id, and one valid without a path id yields 0 |
| `TaskModel.RequestFromResponse` | internal/pkg/tasks/model/task.go:18-54 | a request rebuilt from a response maps back to that response's content |
| `Service.TaskService.constructor` | internal/pkg/tasks/service/service.go:22-40 | the repository of the last non-nil option, nil when there is none |
| `Service.TaskService.GetAll` | internal/pkg/tasks/service/service.go:43-54 | one response per stored task, each that of a stored task or of the zero task; when keys match ids, in strictly ascending id order, each the response of the task stored under its id |
| `Service.TaskService.GetById` | internal/pkg/tasks/service/service.go:57-64 | the response of the stored task, or a zero response with `ErrNotFound` |
| `Service.TaskService.Upsert` | internal/pkg/tasks/service/service.go:79-93 | a request without an id performs exactly Insert, and one with an id exactly Update, of `ToEntity` of the request; an error comes back with a zero response, a success with the response of the repository's result |
| `Service.TaskService.RemoveById` | internal/pkg/tasks/service/service.go:67-70 | exactly the repository's removal, and its error |
| `Service.TaskService.RemoveByIds` | internal/pkg/tasks/service/service.go:73-76 | exactly the repository's batch removal, and its error |
| `Config.GetGlobalVerbosity` | internal/pkg/config/config.go:38-40 | the global verbosity |
| `Config.GetVerbosity` | internal/pkg/config/config.go:42-47 | the module's own verbosity when it has one, else the global one |
| `Config.GetModules` | internal/pkg/config/config.go:49-54 | every module name exactly once, in an unspecified order |
| `Config.GetAppEnv` | internal/pkg/config/config.go:127-135 | the variable's value when it is one of local, dev, nonprod and prod, else local; always a known environment |
| `Config.GetEnvVarInt` | internal/pkg/config/config.go:137-144 | the value `Atoi` reads from the variable, else the default |
| `Config.ParsePair` | internal/pkg/config/config.go:164-180 | accepted exactly when there is one `=`, the trimmed key is not empty and the trimmed value is an integer; the key is the trimmed text before the `=`, non-empty and free of `=`, and the value is the integer read after it |
| `Config.ItoaIsTrimmed` | internal/pkg/config/config.go:171-176 | an integer's text holds no `=` or `,` and has no white space at either end |
| `Config.ParsePairRoundTrip` | internal/pkg/config/config.go:164-180 | `KEY=INT`, written from a trimmed key without `=` and a 64-bit integer, parses back to that pair |
| `Config.CollectPairsKeys` | internal/pkg/config/config.go:151-155 | every key of the map comes from an accepted pair |
| `Config.CollectPairsLastWins` | internal/pkg/config/config.go:151-155 | the last accepted pair for a key decides its value |
| `Config.GetEnvVarInts` | internal/pkg/config/config.go:146-162 | the accepted pairs of the comma-separated variable, later ones overwriting earlier ones; empty when the variable is unset or no pair is accepted |
| `Config.EnvVarIntsRoundTrip` | internal/pkg/config/config.go:146-180 | a comma-separated list of `KEY=INT` pairs with distinct well-formed keys reads back as exactly the map of those pairs: every written key with its value, and no other key |
| `Config.New` | internal/pkg/config/config.go:64-125 | the defaults (local, 8080, verbosity 0, no modules) with the non-nil options applied in order |
| `Config.AppEnvIsKnown` | internal/pkg/config/config.go:64-135 | unless `WithAppEnv` sets it, the environment is one of the four known ones |
| `Config.PortDefaultsTo8080` | internal/pkg/config/config.go:26-144 | the port is 8080 unless `WithAppPort` or an `APP_PORT` that `Atoi` accepts sets it |

## Left out

- Concurrency: the repository's map and counter are shared without locks. The model is sequential.
- Time: `time.Now()` and a clock's `Now()` are an abstract integer, passed in as `now`.
- Regular expressions: Go's RE2 engine is a function parameter that reports a compile error as `None`. Only `[0-9]+` is given its meaning, as "holds a digit".
- Text: strings are sequences of code points, not UTF-8 bytes. `strings.ToLower` is modelled on the ASCII letters only. Non-ASCII case mapping is not modelled, because no non-ASCII letter lowers to a character that `Atoi` or `ParseBool` accepts.
- Integers are unbounded. The counter's 64-bit overflow after 2^63 inserts is not modelled. `Atoi` does enforce the 64-bit range.
- Nil and empty: a nil slice and an empty slice are both `[]`, and a nil map and an empty map are both `map[]`. None of the modelled reads tells them apart. `getEnvVarInts` returning nil is the empty map.
- `WithTasks` shares the caller's map with the repository. Later writes by either side are not modelled, because maps are values here.
- A nil repository makes every Go service method panic. The model's service methods require a non-nil repository instead.
- Repository.MemoryRepository.GetAll: in general the contract gives only the length and that each entry is a stored task or a zero task. It gives the order and the exact contents only when every task sits under its own id, because only then is the sort of task ids a sort of keys.
- Service.TaskService.GetAll: in general the contract gives the length and that each response is that of a stored task or of the zero task, but not their order. The order follows `Repository.MemoryRepository.GetAll`, which is pinned down only when every task sits under its own id.
- The `PathParam` cache is an optional integer. The source's map keyed by `reflect.Kind` only ever holds the `reflect.Int` entry.
- `GetPathParam` copies share the cache map with the stored cell in Go. That sharing is not modelled. Stored cells always have a nil cache, because only copies are ever parsed, so the copy allocates its own map.
- Logging: the middleware's and `ParseQueryFlag`'s log calls are left out.
- HTTP plumbing: response writing, JSON encoding and `next.ServeHTTP` become the `Dispatch` result.
- The controllers, the router and the logger package are not part of this model.
- `common.GetPathParam` and `common.GetQueryParam` are the same reads as `UrlParams.ParsePathParam` and `UrlParams.ParseQueryParam`, so they are not modelled twice.
- Environment: `os.LookupEnv` and `godotenv.Load` become a map from variable name to value, carried by the `WithEnvVars` option.
- Option closures: the options of `New` in the repository, the service, the configuration and the error response are datatypes, applied by the same loop. A nil option is `None`.
