# datarest core, modelled in Dafny

This project models the two pieces of `datarest` that decide what happens to a
request before and around the database.

- **The sql-api catalog and pipeline** (`dbConfApi.go`).
  - `InitSqlConfApi` compiles `<sqlApi>` elements into catalog entries.
    - Statement ids default to the statement's position.
    - A blank body makes a shorthand statement.
    - `<must>` lists are split on commas.
    - `<param>` entries are filed in a map.
    - Each entry is stored under its path, and an entry with a path becomes a route.
  - The route handler checks the must parameters.
  - `ExecSqlConfApi` then runs the entry's statements on one session.
    - It seeds a local scope, giving every `{{guid}}` parameter a fresh guid.
    - It walks the statements in order.
    - It substitutes a `${name}` table.
    - It forwards generated ids into the scope as `<id>.id`.
    - It applies the entry's error policy: stop at the first error and roll back, or pass errors over.
    - At the end it appends the scope and commits.
- **The generic table endpoints** (`dbCommonApi.go`).
  - `InitDbApi` checks the `enableDbApi` switch, applies the `logPath` default, indexes the table descriptors by name, and registers the endpoints: six per table, then `/tables` and `/sql`.
  - The gates of `/sql`, delete, insert/update and select/count decide whether a request reaches the database and with what.
  - The delete statement is built as `delete from <table> where <first primary key> = ?;`.

Modules:
- `Text` covers the Go string functions the source relies on: `TrimSpace`, `Split`, `ToUpper`, `Contains` and decimal rendering.
- `Json` holds request bodies and the `{code, msg, data}` envelope.
- `Maps` is the "assign each pair in turn" idiom.
- `SqlCatalog`, `SqlPipeline` and `CommonApi` follow the source functions.

The imperative parts of the source are methods with loop invariants, each proved against a function that states its result. The pipeline's session and the endpoint registry are classes:
- `SqlPipeline.Session` carries begin/rollback/commit/close flags and the log of statement calls.
- `CommonApi.DbApi` holds `Config`, `Tables`, `tableMetas` and the registered paths.

Package globals are passed in explicitly: the `sqlApis` catalog is a parameter, and `Config`, `Tables` and `tableMetas` are fields of `DbApi`.

Three facts about the code that are easy to get wrong:
- A shorthand table holding `${name}` is replaced as a whole, first by the request value for `name` and then by the local-scope value, so the local scope wins (dbConfApi.go:184-192).
- The pipeline dispatches only the `insert`, `select`, `update` and `delete` shorthand verbs. A shorthand `count` statement does nothing, because the switch at dbConfApi.go:195-243 has no case for it.
- The per-table endpoint paths are registered as `<table>/insert` and so on, with no leading slash (dbCommonApi.go:141). `/tables` and `/sql` do have one.

## Model

| member | source | states |
|---|---|---|
| Text.TrimSpace | dbCommonApi.go:89 | trimming gives the empty string exactly when the text is all white space (Go's `unicode.IsSpace` set) |
| Text.TrimSpaceSpec | dbCommonApi.go:89 | the trimmed text is a slice of the input with only white space before and after it, and it neither starts nor ends with white space |
| Text.TrimSpaceIdempotent | dbCommonApi.go:89 | a law of `strings.TrimSpace`: trimming its result again changes nothing |
| Text.Split | dbConfApi.go:121 | splitting on a comma yields at least one piece, no piece holds a comma, and joining the pieces gives back the text |
| Text.SplitJoin | dbConfApi.go:121 | splitting undoes joining when no piece holds the separator |
| Text.ContainsIff | dbCommonApi.go:96 | `Contains` holds exactly when the word occurs at some position |
| Text.Upper | dbCommonApi.go:96 | `strings.ToUpper` keeps the length of the text |
| Text.UpperSlice | dbCommonApi.go:96 | upper-casing commutes with slicing |
| Text.UpperTrimOccurs | dbCommonApi.go:89-96 | a word without white space at its ends occurs in the upper-cased trimmed text exactly when it occurs in the upper-cased text |
| Text.UpperInsideSpace | dbCommonApi.go:89-96 | the same for any slice with only white space around it |
| Text.IndexOfFirst | dbCommonApi.go:180 | the search for a character finds its first occurrence |
| Text.NatToDecimal | dbConfApi.go:100 | `strconv.Itoa` of a position: non-empty, all digits, no leading zero |
| Text.DecimalRoundTrip | dbConfApi.go:100 | reading back the decimal rendering gives the number |
| Text.NatToDecimalInjective | dbConfApi.go:100 | different positions get different default ids |
| Text.IntToDecimal | dbConfApi.go:174 | `fmt.Sprintf("%v", id)`: a leading minus exactly for negative ids, otherwise the unsigned rendering |
| Text.IntRoundTrip | dbConfApi.go:207 | a forwarded id reads back as the id |
| Maps.AssignKeys | dbConfApi.go:92-95 | the map built by assigning pairs in turn has exactly the assigned keys |
| Maps.AssignLastWins | dbConfApi.go:94 | a key holds the value of its last assignment |
| Maps.AssignSnoc | dbConfApi.go:94 | one more assignment is one more map update |
| Maps.Assign | dbConfApi.go:92-95 | a map filled by assigning pairs in turn, as the `<param>` loop and the `tableMetas` loop (dbCommonApi.go:58-63) do; AssignKeys, AssignLastWins and AssignSnoc state its contents |
| SqlCatalog.CompileSql | dbConfApi.go:97-115 | a `<sql>` element's table attribute, its id or its position in decimal, a templated statement exactly when the trimmed text is not blank, the trimmed text kept, and the `type` attribute only for a shorthand |
| SqlCatalog.AttrOr | dbConfApi.go:86-105 | `SelectAttrValue(name, default)`: the attribute when present, else the default; CompileSql and DefaultIdIsIndex state what the defaults give |
| SqlCatalog.DefaultIdIsIndex | dbConfApi.go:100 | a statement without an id is named by its zero-based position in decimal digits |
| SqlCatalog.CompileSqls | dbConfApi.go:97-115 | one statement per `<sql>` element |
| SqlCatalog.ParamPairs | dbConfApi.go:93-95 | one assignment per `<param>` element |
| SqlCatalog.MustPieces | dbConfApi.go:117-126 | a blank `<must>` adds nothing; otherwise its pieces join back to the trimmed text and hold no comma |
| SqlCatalog.MustListShape | dbConfApi.go:117-126 | no must name holds a comma, and blank `<must>` elements add no names |
| SqlCatalog.MustListSnoc | dbConfApi.go:117-126 | each `<must>` element appends its pieces to the names before it |
| SqlCatalog.CompiledParams | dbConfApi.go:92-95 | the parameter map holds, for each key, the value of the last `<param>` with that key |
| SqlCatalog.CompiledParamKeys | dbConfApi.go:92-95 | the parameter map has exactly the `key` attributes as keys |
| SqlCatalog.CompileParams | dbConfApi.go:92-95 | the `<param>` loop builds the map of `Compiled` |
| SqlCatalog.CompileSqlList | dbConfApi.go:97-115 | the `<sql>` loop builds the statement list of `Compiled`, in document order |
| SqlCatalog.CompileSqlsSnoc | dbConfApi.go:114 | each `<sql>` element appends its one statement |
| SqlCatalog.AppendEach | dbConfApi.go:122-124 | the append loop yields the old list followed by the pieces |
| SqlCatalog.CompileMust | dbConfApi.go:117-126 | the `<must>` loop builds the must list of `Compiled` |
| SqlCatalog.CompileApi | dbConfApi.go:84-126 | one `<sqlApi>` element compiles to `Compiled`: path, transaction and passError flags, statements, parameters and must list |
| SqlCatalog.Compiled | dbConfApi.go:84-126 | the entry an `<sqlApi>` element compiles to; its parts are described by CompileSql, CompiledParams, CompiledParamKeys and MustListShape, and CompileApi is proved to build it |
| SqlCatalog.MustList | dbConfApi.go:117-126 | the must names of the `<must>` elements in document order; MustListSnoc and MustListShape state their shape |
| SqlCatalog.CompileAll | dbConfApi.go:82-83 | one entry per `<sqlApi>` element |
| SqlCatalog.Install | dbConfApi.go:129 | the catalog after each entry is stored under its path; InstallLastWins, InstallKeeps and InstallSnoc state its contents |
| SqlCatalog.Routes | dbConfApi.go:256-262 | the entries that get a route; RoutesExactly and RoutesSnoc state which |
| SqlCatalog.InstallLastWins | dbConfApi.go:129 | a path holds the last entry declaring it |
| SqlCatalog.InstallKeeps | dbConfApi.go:129 | a path no element declares keeps its earlier entry, so reloading adds to the catalog |
| SqlCatalog.InstallSnoc | dbConfApi.go:129 | each entry is one more catalog update |
| SqlCatalog.RoutesSnoc | dbConfApi.go:256-262 | each entry adds itself to the routes exactly when its path is non-empty |
| SqlCatalog.RoutesExactly | dbConfApi.go:256-262 | the routes are exactly the entries with a non-empty path |
| SqlCatalog.InitSqlConfApi | dbConfApi.go:80-133 | the loop stores every compiled entry under its path and registers the entries with a path, in document order |
| SqlPipeline.FirstMissing | dbConfApi.go:271-283 | no name is reported exactly when every must name is present and not null; a reported name is the first one missing or null |
| SqlPipeline.CloseFrom | dbConfApi.go:69 | the first `}` that no line break precedes, or none when every `}` has a line break before it |
| SqlPipeline.MatchFrom | dbConfApi.go:184-186 | the leftmost shortest `${...}` match of the regular expression `\$\{(.*?)\}`, or none at all |
| SqlPipeline.TableParam | dbConfApi.go:184-186 | the name inside the first `${...}` of a table, if any; TableParamSpec states it |
| SqlPipeline.ResolveTable | dbConfApi.go:184-192 | the table a shorthand statement runs on; ResolveTablePrecedence states the precedence |
| SqlPipeline.TableParamSpec | dbConfApi.go:184-186 | a name is found exactly when the pattern matches; it is the content of the leftmost match, holds no `}` or line break, and `${name}` occurs in the table |
| SqlPipeline.ResolveTablePrecedence | dbConfApi.go:184-192 | a table without a placeholder is kept; otherwise the local scope wins over the request, and the request over the table as written |
| SqlPipeline.DoesWork | dbConfApi.go:162-243 | which statements reach the session: every templated one, and shorthands whose verb is `insert`, `select`, `update` or `delete`; RunFromVisits and PipelineCompletes state that exactly these run |
| SqlPipeline.IdKey | dbConfApi.go:174 | the scope key `<id>.id` a generated id is stored under (also dbConfApi.go:207); PipelineForwardsId states when it is written |
| SqlPipeline.WritesKey | dbConfApi.go:172-176 | statement `j` runs and writes scope key `k`; RunFromScope and PipelineScope state that only such statements change the scope |
| SqlPipeline.IdWrite | dbConfApi.go:172-176 | the scope entry a statement writes: `<id>.id` for a templated statement with a last-insert-id and a non-empty id, and for every shorthand insert (dbConfApi.go:207); PipelineForwardsId, RunFromForwards and RunFromKeepsKey state its effect on a run |
| SqlPipeline.Forward | dbConfApi.go:172-176 | the scope after a statement's id write; RunFromScope states that it only adds `.id` keys |
| SqlPipeline.Contributed | dbConfApi.go:177-179 | the rows a templated statement or a shorthand select (dbConfApi.go:219) adds; RunFromRows states where they end up |
| SqlPipeline.RunFrom | dbConfApi.go:161-245 | the reference run of the statement loop from a position; RunFromRows, RunFromVisits, RunFromStops, RunFromScope, RunFromForwards and RunFromKeepsKey state its meaning |
| SqlPipeline.Pipeline | dbConfApi.go:161-245 | the reference run of a whole entry from its seeded scope; PipelineStops, PipelineCompletes, PipelineScope, PipelineForwardsId and EmptyPipeline state its meaning, and ExecSqlConfApi is proved to follow it |
| SqlPipeline.Returned | dbConfApi.go:246-253 | what a run hands back: after a stop the rows so far and the error, otherwise the rows followed by the scope when it is not empty; EmptyPipeline gives the case without statements |
| SqlPipeline.CallsOf | dbConfApi.go:161-243 | one session call per visit, at the same statement position |
| SqlPipeline.TableOf | dbConfApi.go:184-193 | the table a statement's call records: a templated statement's own, a shorthand's after substitution; CallsOfSnoc and Step state that each call records it |
| SqlPipeline.CallsOfSnoc | dbConfApi.go:161-243 | one more visit is one more call, on the table the statement resolves to |
| SqlPipeline.Positions | dbConfApi.go:161 | one position per visit |
| SqlPipeline.PositionsSnoc | dbConfApi.go:161 | one more visit appends its position |
| SqlPipeline.RunFromRows | dbConfApi.go:161-245 | a completed run returns the rows of every statement in order; a stopped run returns only those of the statements before the failing one |
| SqlPipeline.RunFromVisits | dbConfApi.go:161-245 | the statements run are exactly those with a known verb, in order, up to the end or up to and including the failing one |
| SqlPipeline.RunFromStops | dbConfApi.go:164-170 | a run stops only when errors are not passed over, at a dispatched statement with an error, and no earlier dispatched statement failed |
| SqlPipeline.PipelineStops | dbConfApi.go:164-170 | fail-fast: the run stops exactly when errors are not passed over and some dispatched statement fails; it stops at the first such statement, holding only the earlier rows, with no later statement run |
| SqlPipeline.PipelineCompletes | dbConfApi.go:245-253 | with errors passed over, or with no failure, the run completes every statement with a known verb and returns all their rows in order |
| SqlPipeline.RunFromScope | dbConfApi.go:172-207 | the scope only grows; every key that is new or changed was written by a later statement that ran and whose outcome writes that key; seeded keys that are not id keys keep their values |
| SqlPipeline.PipelineScope | dbConfApi.go:147-207 | the returned scope holds every parameter key; every key that is new or changed was written by a statement that ran and whose outcome writes it, so, e.g., a templated statement that returns rows adds no `<id>.id`; parameter values under keys that are not id keys are kept |
| SqlPipeline.RunFromForwards | dbConfApi.go:172-207 | the last dispatched statement writing an id key leaves its value in the final scope |
| SqlPipeline.RunFromKeepsKey | dbConfApi.go:172-207 | a key no later dispatched statement writes keeps its value |
| SqlPipeline.PipelineForwardsId | dbConfApi.go:172-207 | id forwarding: a templated statement with a last-insert-id and an id, or any shorthand insert, leaves `<id>.id` as its decimal id unless a later dispatched statement overwrites it |
| SqlPipeline.EmptyPipeline | dbConfApi.go:246-253 | an entry without statements returns just its seeded scope, when that is not empty |
| SqlPipeline.SeedScope | dbConfApi.go:147-152 | the seeded scope has exactly the parameter keys; `{{guid}}` values are taken from the guid supply, distinct keys getting distinct guids when the supply does not repeat; other values are copied |
| SqlPipeline.SlotsGiveSeeded | dbConfApi.go:147-152 | guids taken from distinct positions of a supply that does not repeat are distinct |
| SqlPipeline.Session.constructor | dbConfApi.go:154 | a fresh session: nothing begun, rolled back, committed or closed, and no calls |
| SqlPipeline.Session.Begin | dbConfApi.go:156-158 | sets only the begun flag |
| SqlPipeline.Session.Rollback | dbConfApi.go:166-168 | sets only the rolled-back flag |
| SqlPipeline.Session.Commit | dbConfApi.go:250-252 | sets only the committed flag |
| SqlPipeline.Session.Close | dbConfApi.go:155 | sets only the closed flag |
| SqlPipeline.Session.Run | dbConfApi.go:163 | appends one call and changes no flag |
| SqlPipeline.Step | dbConfApi.go:161-243 | one statement: it stops the run exactly when it runs, fails and errors are not passed over, reporting its own error; a call exactly for a statement with a known verb, on the resolved table; then either the run continues from the next position with the forwarded scope and gathered rows, or it stops here with the rows unchanged |
| SqlPipeline.StepTemplated | dbConfApi.go:162-181 | a templated statement always runs; on an error that is not passed over the run stops; otherwise its last-insert-id is forwarded and its rows gathered |
| SqlPipeline.StepShorthand | dbConfApi.go:183-243 | the table is substituted first; then a known verb runs, an insert forwarding its id and a select gathering its rows; any other verb does nothing |
| SqlPipeline.RunStatements | dbConfApi.go:161-245 | the statement loop ends as the reference run does: the same visits and session calls, completed with its scope and rows, or stopped with its rows and error; no session flag changes |
| SqlPipeline.ExecSqlConfApi | dbConfApi.go:135-254 | an unknown path fails before the session is touched; otherwise the result and the error are those of the reference run, the session holds that run's calls and is closed, and it was begun iff the entry is transactional, rolled back iff transactional and stopped, and committed iff transactional and completed |
| SqlPipeline.ServeSqlApi | dbConfApi.go:262-294 | a missing or null must parameter is answered with code -1 and `<name>为必须参数` before the session is touched; otherwise the pipeline's error is answered with code -1 and its rows with code 0 |
| SqlPipeline.RequestFields | dbConfApi.go:265-268 | an undecodable body is handled as an empty object; ServeSqlApi states what the handler does with it |
| CommonApi.WithLogPathSpec | dbCommonApi.go:41-44 | an absent `logPath` becomes `"logs"`, a present one is kept, no other entry changes, and the default is idempotent |
| CommonApi.Enabled | dbCommonApi.go:37-40 | the API is switched on only when `enableDbApi` is present and true; InitDbApi states that nothing beyond storing the configuration happens otherwise |
| CommonApi.WithLogPath | dbCommonApi.go:41-44 | the configuration after the `logPath` default; WithLogPathSpec states it |
| CommonApi.LogDir | dbCommonApi.go:41-47 | the log directory after the `logPath` default; InitDbApi's `Registered` endpoints are decided by the log files under it |
| CommonApi.TableLogPath | dbCommonApi.go:126 | the log file `<dir>/<table>.log` that guards a table's endpoints; TableHandlersIff states the effect of it not opening |
| CommonApi.SqlLogPath | dbCommonApi.go:65 | the log file `<dir>/sql.log` that guards `/sql`; RegisterAll states the effect of it not opening |
| CommonApi.NamePairs | dbCommonApi.go:61 | one name/descriptor pair per descriptor |
| CommonApi.IndexByName | dbCommonApi.go:54-63 | `tableMetas` built from the descriptors; IndexByNameKeys, IndexByNameLastWins and IndexByNameSnoc state its contents |
| CommonApi.IndexByNameKeys | dbCommonApi.go:54-63 | `tableMetas` has exactly the table names as keys |
| CommonApi.IndexByNameLastWins | dbCommonApi.go:61 | a name holds the last descriptor carrying it |
| CommonApi.IndexByNameSnoc | dbCommonApi.go:61 | each descriptor is one more index update |
| CommonApi.RoutesOf | dbCommonApi.go:125-138 | six endpoints per table |
| CommonApi.RoutesOfSpelled | dbCommonApi.go:132-137 | the endpoints are `<name>/insert`, `/update`, `/select`, `/delete`, `/count`, `/schema`, in that order |
| CommonApi.TableRoutes | dbCommonApi.go:125-138 | one table's endpoints: none when its log file cannot be opened, otherwise its six; RegisterTableCommonApi is proved to register them |
| CommonApi.TableHandlers | dbCommonApi.go:58-63 | the endpoints of all tables in order; TableHandlersSnoc and TableHandlersIff state which |
| CommonApi.TableHandlersSnoc | dbCommonApi.go:58-63 | each descriptor appends its endpoints to those of the earlier ones |
| CommonApi.TableHandlersIff | dbCommonApi.go:58-63 | the table endpoints registered are exactly the six endpoints of each table whose log file opens |
| CommonApi.Registered | dbCommonApi.go:58-71 | the endpoints an enabled start registers: the table endpoints, `/tables`, and `/sql` unless `sql.log` cannot be opened; TableHandlersIff states which table endpoints, and InitDbApi is proved to register them |
| CommonApi.DbApi.constructor | dbCommonApi.go:13-17 | the package state before any call: no configuration, tables, index or endpoints |
| CommonApi.DbApi.RegisterHandler | dbCommonApi.go:71 | registering appends one path and changes nothing else |
| CommonApi.DbApi.RegisterTableCommonApi | dbCommonApi.go:125-138 | a table whose log file cannot be opened gets no endpoints; otherwise its six, in order |
| CommonApi.DbApi.InitDbApi | dbCommonApi.go:33-64 | nothing beyond storing the configuration unless `enableDbApi` is present and true; then the `logPath` default is stored; a failed introspection changes nothing more; otherwise `Tables` is the descriptors in order, `tableMetas` their index by name, and the endpoints of `Registered` are added |
| CommonApi.DbApi.RegisterAll | dbCommonApi.go:54-71 | `Tables` and `tableMetas` rebuilt from the descriptors, then the table endpoints, `/tables`, and `/sql` unless its log file cannot be opened |
| CommonApi.DbApi.LoadTables | dbCommonApi.go:54-63 | the descriptor loop rebuilds `Tables` in order and `tableMetas` by name and registers each table's endpoints |
| CommonApi.SqlGate | dbCommonApi.go:73-99 | the `/sql` checks in the source's order; SqlGateDecides, SqlGateAccepted and SqlGateAnyCase state their meaning |
| CommonApi.SqlGateDecides | dbCommonApi.go:73-99 | `/sql` answers `参数错误` for a missing, null or non-string `sql`, `参数不包含sql` for blank text, and `sql参数中不允许出现delete` for text mentioning `DELETE` in any case; otherwise it passes the trimmed text on |
| CommonApi.SqlGateAccepted | dbCommonApi.go:89-102 | the text passed on is a non-empty slice of the sent text, with no white space at either end and no `DELETE` |
| CommonApi.SqlGateAnyCase | dbCommonApi.go:96-99 | any spelling of `delete`, in any mix of letter cases, anywhere in the text is refused |
| CommonApi.DeleteSql | dbCommonApi.go:179-180 | the delete statement on a table's first primary key; DeleteSqlRoundTrip and DeleteSqlPlaceholder read it back |
| CommonApi.DeleteSqlRoundTrip | dbCommonApi.go:179-180 | the delete statement reads back as exactly its table and key, for a table name without spaces |
| CommonApi.SplitWhereRoundTrip | dbCommonApi.go:180 | `<table> where <key>` splits back into table and key |
| CommonApi.DeleteSqlPlaceholder | dbCommonApi.go:180-181 | the statement's only `?` is the one before the final `;`, so the id is its one bind value |
| CommonApi.DeleteGate | dbCommonApi.go:164-181 | the three delete checks in the source's order and the statement with its bind value; DeleteGateDecides states their meaning |
| CommonApi.DeleteGateDecides | dbCommonApi.go:164-181 | delete proceeds exactly for a decodable non-empty body with a non-null `id` on a table with a primary key; the checks come in that order with their messages; what proceeds is the statement on the first primary key with the body's `id` bound |
| CommonApi.WriteGate | dbCommonApi.go:143-147 | the empty-body check of insert, and of update at dbCommonApi.go:201-205; DeleteGateRefinesWriteGate and ServeWriteRefusesEmpty state it |
| CommonApi.ReadParams | dbCommonApi.go:223-226 | select, and count at dbCommonApi.go:244-247, turn an undecodable body into nil parameters; ServeReadNeverRefuses states it |
| CommonApi.DeleteGateRefinesWriteGate | dbCommonApi.go:144-166 | insert and update pass exactly the decodable non-empty bodies; what delete passes they pass, and what they refuse delete refuses with the same message |
| CommonApi.Serve | dbCommonApi.go:153-157 | a refused request runs nothing and is answered with code -1 and the gate's message; otherwise what the gate passed runs and its result or error is answered |
| CommonApi.ServeSql | dbCommonApi.go:71-111 | the `/sql` handler; ServeSqlRunsChecked states what it runs and answers |
| CommonApi.ServeDelete | dbCommonApi.go:161-195 | the delete handler; ServeDeleteRunsChecked states what it runs and answers |
| CommonApi.ServeInsert | dbCommonApi.go:140-158 | the insert handler; ServeWriteRefusesEmpty states what it runs and answers |
| CommonApi.ServeUpdate | dbCommonApi.go:198-217 | the update handler; ServeWriteRefusesEmpty states what it runs and answers |
| CommonApi.ServeSelect | dbCommonApi.go:220-238 | the select handler; ServeReadNeverRefuses states what it runs and answers |
| CommonApi.ServeCount | dbCommonApi.go:241-259 | the count handler; ServeReadNeverRefuses states what it runs |
| CommonApi.ServeSqlRunsChecked | dbCommonApi.go:73-111 | `/sql` runs exactly the trimmed text and never text mentioning `DELETE`; a refusal runs nothing |
| CommonApi.ServeDeleteRunsChecked | dbCommonApi.go:161-195 | delete runs nothing unless all three checks pass, answers every refusal with code -1, and then runs the statement with the body's `id` |
| CommonApi.ServeWriteRefusesEmpty | dbCommonApi.go:140-218 | insert and update answer an undecodable or empty body with `参数错误` and run nothing; otherwise they hand the whole body to the table's writer |
| CommonApi.ServeReadNeverRefuses | dbCommonApi.go:220-260 | select and count always run, with nil parameters for an undecodable body |

## Left out

- Reading the XML file is not modelled (`LoadXml`, `FindElements`, `SelectAttrValue`). Each `<sqlApi>` element arrives as a record of attributes and descendant elements in document order.
- The template parser `parseSql` is not part of this model, and neither are its bind lists. A templated statement keeps the trimmed text that would be handed to it.
- The statement executors (`exec`, `doInsert`, `doSelect`, `doUpdate`, `doDelete`, `doCount`) and the database engine are not part of this model. Each statement's outcome is an input: rows, an exec result with or without a last-insert-id, an inserted id, or an error.
- `DBMetas` introspection is not modelled. Its descriptors are an input, or `None` for its error.
- The database connection set up by `initDbApi()` is not part of this model.
- `middleware.Guid()` becomes a supply of guids passed in. The model does not assume the supply never repeats.
- The file system is left out: the existence check and `Mkdir` of the log directory, and the content of the log files. The only effect kept is that a log file that cannot be opened skips the endpoints it guards.
- Logging (`log.Printf`, `logSql`, the request loggers) is I/O and is left out.
- Concurrent requests and the process-global maps are left out. The catalog is passed as a value, and the endpoint state is one object.
- Go's distinction between a nil slice or map and an empty one is not modelled. For example, an unknown path returns `nil` in the source and `[]` here.
- JSON numbers are integers here rather than `float64`. The gates only test presence, null-ness and string-ness.
- The answers of `/tables` and `<table>/schema` marshal descriptors to JSON, which is not modelled. Their registration is.
- Go type assertions that would panic are preconditions rather than modelled failures: `enableDbApi` must be a boolean when present, `logPath` a string when present and the API enabled, and a request value named by the table placeholder of a shorthand statement the loop reaches a string (statements after a fail-fast stop are never substituted, so they are not constrained).
- CommonApi.DbApi.InitDbApi: the `logPath` default is written into the stored configuration only. In the source `Config` and the caller's `conf` are the same map (dbCommonApi.go:35), so the default also appears in the caller's map; that aliasing is not modelled.
- Text.Upper: only ASCII letters are upper-cased. The one use is the search for `DELETE`, and no character outside ASCII upper-cases to D, E, L or T, so that search is unaffected.
- Text.TrimSpace: strings are sequences of code points, so invalid UTF-8 is not modelled.
- CommonApi.ServeSql: a failed query is answered without data. The source also passes along whatever the query returned before failing.
- CommonApi.DeleteSqlRoundTrip: round trip stated only for table names without spaces.
- SqlPipeline.ExecSqlConfApi: a templated statement's call records the statement's `table` attribute as written. The table used inside the template is the parser's business.
