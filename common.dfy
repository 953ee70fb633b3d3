/**
  The generic table endpoints of dbCommonApi.go: `InitDbApi`, which takes
  the configuration, indexes the table descriptors the database reports and
  registers six endpoints per table plus `/tables` and `/sql`; and the
  decision each of those endpoints makes about a request before anything
  reaches the database.

  The database (`DBMetas` and the statement executors), the file system
  (the log directory and the log files) and the HTTP router are not
  modelled: the descriptors, the set of log files that cannot be opened and
  each statement's result are inputs, and the router is the list of paths
  registered with it.
*/
module CommonApi {
  import opened Text
  import opened Json
  import Maps

  /** A table descriptor as the database reports it (`core.Table`),
      reduced to its name, its column names and its primary-key columns. */
  datatype Table = Table(name: string, columns: seq<string>, primaryKeys: seq<string>)

  const BadParams := "参数错误"
  const NoSql := "参数不包含sql"
  const NoDelete := "sql参数中不允许出现delete"
  const NeedId := "删除数据必须指定id值"
  const NoPrimaryKey := "表不存在主键, 无法删除数据"
  /** The log directory used when the configuration names none. */
  const DefaultLogPath := "logs"
  /** The endpoints of one table, in the order `registerTableCommonApi`
      registers them. */
  const Verbs := ["insert", "update", "select", "delete", "count", "schema"]

  // ---------------------------------------------------------------------
  // Configuration

  /** `enableDbApi` is present and true. */
  predicate Enabled(conf: Object) {
    "enableDbApi" in conf && conf["enableDbApi"] == JBool(true)
  }

  /** The configuration after the `logPath` default. */
  function WithLogPath(conf: Object): Object {
    if "logPath" in conf then conf else conf["logPath" := JString(DefaultLogPath)]
  }

  /** An absent `logPath` becomes `"logs"`, a present one is kept, and no
      other entry changes; applying the default twice is applying it once. */
  lemma WithLogPathSpec(conf: Object)
    ensures var r := WithLogPath(conf);
      && r.Keys == conf.Keys + {"logPath"}
      && (forall k :: k in conf ==> r[k] == conf[k])
      && ("logPath" !in conf ==> r["logPath"] == JString(DefaultLogPath))
      && WithLogPath(r) == r
  {
  }

  /** A `logPath` that is present is a string, as the source's assertion
      `conf["logPath"].(string)` demands. */
  predicate LogPathTyped(conf: Object) {
    "logPath" in conf ==> conf["logPath"].JString?
  }

  /** The log directory the configuration names, after the default. */
  function LogDir(conf: Object): string
    requires LogPathTyped(conf)
  {
    WithLogPath(conf)["logPath"].s
  }

  function TableLogPath(dir: string, name: string): string {
    dir + "/" + name + ".log"
  }

  function SqlLogPath(dir: string): string {
    dir + "/sql.log"
  }

  // ---------------------------------------------------------------------
  // The table index

  function NamePairs(ts: seq<Table>): (r: seq<(string, Table)>)
    ensures |r| == |ts|
  {
    seq(|ts|, k requires 0 <= k < |ts| => (ts[k].name, ts[k]))
  }

  /** `tableMetas`: each descriptor filed under its name, in order. */
  function IndexByName(ts: seq<Table>): map<string, Table> {
    Maps.Assign(NamePairs(ts))
  }

  /** The index has exactly the names of the descriptors as keys. */
  lemma IndexByNameKeys(ts: seq<Table>)
    ensures IndexByName(ts).Keys == set k | 0 <= k < |ts| :: ts[k].name
  {
    var pairs := NamePairs(ts);
    Maps.AssignKeys(pairs);
    assert (set k | 0 <= k < |pairs| :: pairs[k].0) == set k | 0 <= k < |ts| :: ts[k].name by {
      forall k | 0 <= k < |ts| ensures pairs[k].0 == ts[k].name { }
    }
  }

  /** A name maps to the last descriptor that carries it. */
  lemma IndexByNameLastWins(ts: seq<Table>, i: nat)
    requires i < |ts|
    requires forall j :: i < j < |ts| ==> ts[j].name != ts[i].name
    ensures ts[i].name in IndexByName(ts) && IndexByName(ts)[ts[i].name] == ts[i]
  {
    var pairs := NamePairs(ts);
    forall j | i < j < |pairs| ensures pairs[j].0 != pairs[i].0 { }
    Maps.AssignLastWins(pairs, i);
  }

  lemma IndexByNameSnoc(ts: seq<Table>, t: Table)
    ensures IndexByName(ts + [t]) == IndexByName(ts)[t.name := t]
  {
    assert NamePairs(ts + [t]) == NamePairs(ts) + [(t.name, t)];
    Maps.AssignSnoc(NamePairs(ts), t.name, t);
  }

  // ---------------------------------------------------------------------
  // The registered endpoints

  /** The six endpoint paths of a table; unlike `/tables` and `/sql` they
      carry no leading slash. */
  function RoutesOf(name: string): (r: seq<string>)
    ensures |r| == |Verbs|
  {
    seq(|Verbs|, j requires 0 <= j < |Verbs| => name + "/" + Verbs[j])
  }

  lemma RoutesOfSpelled(name: string)
    ensures RoutesOf(name) == [name + "/insert", name + "/update", name + "/select",
                               name + "/delete", name + "/count", name + "/schema"]
  {
    var r := RoutesOf(name);
    assert r[0] == name + "/insert" && r[1] == name + "/update" && r[2] == name + "/select";
    assert r[3] == name + "/delete" && r[4] == name + "/count" && r[5] == name + "/schema";
  }

  /** A table's endpoints, registered only when its log file opens. */
  function TableRoutes(t: Table, dir: string, unopenable: set<string>): seq<string> {
    if TableLogPath(dir, t.name) in unopenable then [] else RoutesOf(t.name)
  }

  function TableHandlers(ts: seq<Table>, dir: string, unopenable: set<string>): seq<string> {
    if ts == [] then []
    else TableHandlers(ts[..|ts| - 1], dir, unopenable) + TableRoutes(ts[|ts| - 1], dir, unopenable)
  }

  lemma TableHandlersSnoc(ts: seq<Table>, t: Table, dir: string, unopenable: set<string>)
    ensures TableHandlers(ts + [t], dir, unopenable) == TableHandlers(ts, dir, unopenable) + TableRoutes(t, dir, unopenable)
  {
    assert (ts + [t])[..|ts|] == ts;
  }

  /** Everything `InitDbApi` registers for these descriptors: the table
      endpoints, then `/tables`, then `/sql` when the sql log opens. */
  function Registered(ts: seq<Table>, dir: string, unopenable: set<string>): seq<string> {
    TableHandlers(ts, dir, unopenable) + ["/tables"] + (if SqlLogPath(dir) in unopenable then [] else ["/sql"])
  }

  /** `r` is one of the endpoints of a table whose log file opens. */
  ghost predicate Exposes(ts: seq<Table>, dir: string, unopenable: set<string>, r: string) {
    exists k :: 0 <= k < |ts| && TableLogPath(dir, ts[k].name) !in unopenable && r in RoutesOf(ts[k].name)
  }

  /** The table endpoints registered are exactly the six endpoints of every
      table whose log file opens. */
  lemma {:induction false} TableHandlersIff(ts: seq<Table>, dir: string, unopenable: set<string>, r: string)
    ensures r in TableHandlers(ts, dir, unopenable) <==> Exposes(ts, dir, unopenable, r)
    decreases |ts|
  {
    if ts != [] {
      var n := |ts| - 1;
      var front, last := ts[..n], ts[n];
      TableHandlersIff(front, dir, unopenable, r);
      assert TableHandlers(ts, dir, unopenable) == TableHandlers(front, dir, unopenable) + TableRoutes(last, dir, unopenable);
      if Exposes(ts, dir, unopenable, r) {
        var k :| 0 <= k < |ts| && TableLogPath(dir, ts[k].name) !in unopenable && r in RoutesOf(ts[k].name);
        if k < n {
          assert front[k] == ts[k];
        }
      }
      if Exposes(front, dir, unopenable, r) {
        var k :| 0 <= k < |front| && TableLogPath(dir, front[k].name) !in unopenable && r in RoutesOf(front[k].name);
        assert ts[k] == front[k];
      }
    }
  }

  // ---------------------------------------------------------------------
  // The package state and `InitDbApi`

  /** The state `InitDbApi` writes: the package variables `Config`,
      `Tables` and `tableMetas`, and the paths registered with the router,
      in registration order. */
  class DbApi {
    var config: Object
    var tables: seq<Table>
    var tableMetas: map<string, Table>
    var handlers: seq<string>

    constructor ()
      ensures config == map[] && tables == [] && tableMetas == map[] && handlers == []
    {
      config, tables, tableMetas, handlers := map[], [], map[], [];
    }

    /** `middleware.RegisterHandler(path, ...)`. */
    method RegisterHandler(path: string)
      modifies this
      ensures handlers == old(handlers) + [path]
      ensures config == old(config) && tables == old(tables) && tableMetas == old(tableMetas)
    {
      handlers := handlers + [path];
    }

    /** `registerTableCommonApi`: nothing when the table's log file cannot
        be opened, otherwise its six endpoints in order. */
    method RegisterTableCommonApi(tableMeta: Table, unopenable: set<string>)
      requires "logPath" in config && config["logPath"].JString?
      modifies this
      ensures config == old(config) && tables == old(tables) && tableMetas == old(tableMetas)
      ensures handlers == old(handlers) + TableRoutes(tableMeta, config["logPath"].s, unopenable)
    {
      var logPath := TableLogPath(config["logPath"].s, tableMeta.name);
      if logPath in unopenable {
        return;
      }
      RegisterHandler(tableMeta.name + "/insert");
      RegisterHandler(tableMeta.name + "/update");
      RegisterHandler(tableMeta.name + "/select");
      RegisterHandler(tableMeta.name + "/delete");
      RegisterHandler(tableMeta.name + "/count");
      RegisterHandler(tableMeta.name + "/schema");
      RoutesOfSpelled(tableMeta.name);
    }

    /** `InitDbApi(conf)`. `Config` and `conf` are one map in the source, so
        the `logPath` default lands in `Config`. `metas` is what `DBMetas`
        reports (`None` for its error); `unopenable` holds the log files
        that cannot be opened. */
    method InitDbApi(conf: Object, metas: Option<seq<Table>>, unopenable: set<string>)
      requires "enableDbApi" in conf ==> conf["enableDbApi"].JBool?
      requires Enabled(conf) ==> LogPathTyped(conf)
      modifies this
      ensures !Enabled(conf) ==>
        && config == conf
        && tables == old(tables) && tableMetas == old(tableMetas) && handlers == old(handlers)
      ensures Enabled(conf) ==> config == WithLogPath(conf)
      ensures Enabled(conf) && metas.None? ==>
        tables == old(tables) && tableMetas == old(tableMetas) && handlers == old(handlers)
      ensures Enabled(conf) && metas.Some? ==>
        && tables == metas.value
        && tableMetas == IndexByName(metas.value)
        && handlers == old(handlers) + Registered(metas.value, LogDir(conf), unopenable)
    {
      config := conf;
      if "enableDbApi" !in config || !config["enableDbApi"].b {
        return;
      }
      if "logPath" !in config {
        config := config["logPath" := JString(DefaultLogPath)];
      }
      if metas.None? {
        return;
      }
      RegisterAll(metas.value, unopenable);
    }

    /** What `InitDbApi` does once the descriptors are known: rebuild
        `Tables` and `tableMetas` and register each table's endpoints, then
        `/tables`, then `/sql` unless its log file cannot be opened. */
    method RegisterAll(tablesMeta: seq<Table>, unopenable: set<string>)
      requires "logPath" in config && config["logPath"].JString?
      modifies this
      ensures config == old(config)
      ensures tables == tablesMeta && tableMetas == IndexByName(tablesMeta)
      ensures handlers == old(handlers) + Registered(tablesMeta, config["logPath"].s, unopenable)
    {
      LoadTables(tablesMeta, unopenable);
      RegisterHandler("/tables");
      if SqlLogPath(config["logPath"].s) in unopenable {
        return;
      }
      RegisterHandler("/sql");
    }

    /** The loop over the descriptors: `Tables` in their order,
        `tableMetas` keyed by name, and each table's endpoints. */
    method LoadTables(tablesMeta: seq<Table>, unopenable: set<string>)
      requires "logPath" in config && config["logPath"].JString?
      modifies this
      ensures config == old(config)
      ensures tables == tablesMeta && tableMetas == IndexByName(tablesMeta)
      ensures handlers == old(handlers) + TableHandlers(tablesMeta, config["logPath"].s, unopenable)
    {
      ghost var dir := config["logPath"].s;
      tableMetas := map[];
      tables := [];
      var i := 0;
      while i < |tablesMeta|
        invariant i <= |tablesMeta|
        invariant config == old(config)
        invariant tables == tablesMeta[..i]
        invariant tableMetas == IndexByName(tablesMeta[..i])
        invariant handlers == old(handlers) + TableHandlers(tablesMeta[..i], dir, unopenable)
      {
        var tableMeta := tablesMeta[i];
        assert tablesMeta[..i + 1] == tablesMeta[..i] + [tableMeta];
        IndexByNameSnoc(tablesMeta[..i], tableMeta);
        TableHandlersSnoc(tablesMeta[..i], tableMeta, dir, unopenable);
        tables := tables + [tableMeta];
        tableMetas := tableMetas[tableMeta.name := tableMeta];
        RegisterTableCommonApi(tableMeta, unopenable);
        i := i + 1;
      }
      assert tablesMeta[..i] == tablesMeta;
    }
  }

  // ---------------------------------------------------------------------
  // The `/sql` gate

  /** The body holds a string under `sql`. */
  predicate SqlText(body: Body) {
    body.Decoded? && "sql" in body.fields && body.fields["sql"].JString?
  }

  /** The upper-cased text contains `DELETE`. */
  ghost predicate MentionsDelete(s: string) {
    exists i :: OccursAt(Upper(s), "DELETE", i)
  }

  /** The `/sql` handler's checks: a decodable body with a string `sql`,
      not blank once trimmed, not mentioning `DELETE` in any letter case;
      what goes on is the trimmed text. */
  function SqlGate(body: Body): Gate<string> {
    if body.Undecodable? then Reject(BadParams)
    else if "sql" !in body.fields || body.fields["sql"] == JNull then Reject(BadParams)
    else if !body.fields["sql"].JString? then Reject(BadParams)
    else
      var sqlStr := TrimSpace(body.fields["sql"].s);
      if |sqlStr| <= 0 then Reject(NoSql)
      else if Contains(Upper(sqlStr), "DELETE") then Reject(NoDelete)
      else Proceed(sqlStr)
  }

  /** Which message refuses which body, stated on the text as sent: the
      type check first, then blankness, then `DELETE` anywhere in the text. */
  lemma SqlGateDecides(body: Body)
    ensures !SqlText(body) ==> SqlGate(body) == Reject(BadParams)
    ensures SqlText(body) ==>
      var s := body.fields["sql"].s;
      && (AllSpace(s) ==> SqlGate(body) == Reject(NoSql))
      && (!AllSpace(s) && MentionsDelete(s) ==> SqlGate(body) == Reject(NoDelete))
      && (!AllSpace(s) && !MentionsDelete(s) ==> SqlGate(body) == Proceed(TrimSpace(s)))
  {
    if SqlText(body) {
      var s := body.fields["sql"].s;
      ContainsIff(Upper(TrimSpace(s)), "DELETE");
      UpperTrimOccurs(s, "DELETE");
    }
  }

  /** The text passed on is the sent text without its surrounding white
      space: a non-empty slice of it that neither starts nor ends with white
      space and does not mention `DELETE`. */
  lemma SqlGateAccepted(body: Body)
    ensures SqlGate(body).Proceed? ==>
      var s, q := body.fields["sql"].s, SqlGate(body).value;
      && SqlText(body) && |q| > 0
      && (exists a :: OccursAt(s, q, a))
      && !IsSpace(q[0]) && !IsSpace(q[|q| - 1])
      && !MentionsDelete(q)
  {
    if SqlGate(body).Proceed? {
      var s := body.fields["sql"].s;
      var q := TrimSpace(s);
      TrimSpaceSpec(s);
      assert OccursAt(s, q, SkipSpace(s, 0));
      ContainsIff(Upper(q), "DELETE");
    }
  }

  /** Any spelling of `delete`, in any mix of letter cases, anywhere in the
      text is refused. */
  lemma SqlGateAnyCase(body: Body, w: string, i: nat)
    requires SqlText(body) && OccursAt(body.fields["sql"].s, w, i) && Upper(w) == "DELETE"
    ensures SqlGate(body).Reject?
  {
    var s := body.fields["sql"].s;
    UpperSlice(s, i, i + |w|);
    assert OccursAt(Upper(s), "DELETE", i);
    SqlGateDecides(body);
  }

  // ---------------------------------------------------------------------
  // The delete gate and its statement

  /** `fmt.Sprintf("delete from %s where %s = ?;", name, primaryKey)`. */
  function DeleteSql(name: string, primaryKey: string): string {
    "delete from " + name + " where " + primaryKey + " = ?;"
  }

  /** Reading a delete statement back: the table up to the first space
      after `delete from `, and the key between ` where ` and ` = ?;`. */
  function ParseDelete(sql: string): Option<(string, string)> {
    var head, tail := "delete from ", " = ?;";
    if |sql| < |head| + |tail| || sql[..|head|] != head || sql[|sql| - |tail|..] != tail then None
    else SplitWhere(sql[|head|..|sql| - |tail|])
  }

  /** `<table> where <key>`, split at the first space. */
  function SplitWhere(mid: string): Option<(string, string)> {
    if ' ' !in mid then None
    else
      var n := IndexOf(mid, ' ');
      var rest := mid[n..];
      if |rest| < 7 || rest[..7] != " where " then None
      else Some((mid[..n], rest[7..]))
  }

  /** The statement names its table and key: for a table name without
      spaces it reads back as exactly that name and key. */
  lemma DeleteSqlRoundTrip(name: string, primaryKey: string)
    requires ' ' !in name
    ensures ParseDelete(DeleteSql(name, primaryKey)) == Some((name, primaryKey))
  {
    var sql := DeleteSql(name, primaryKey);
    var mid := name + " where " + primaryKey;
    assert sql == "delete from " + mid + " = ?;";
    assert sql[..12] == "delete from ";
    assert sql[|sql| - 5..] == " = ?;";
    assert sql[12..|sql| - 5] == mid;
    SplitWhereRoundTrip(name, primaryKey);
  }

  lemma SplitWhereRoundTrip(name: string, primaryKey: string)
    requires ' ' !in name
    ensures SplitWhere(name + " where " + primaryKey) == Some((name, primaryKey))
  {
    var mid := name + " where " + primaryKey;
    assert mid[|name|] == ' ' && mid[..|name|] == name;
    IndexOfFirst(mid, ' ', |name|);
    var rest := mid[|name|..];
    assert rest == " where " + primaryKey;
    assert rest[..7] == " where " && rest[7..] == primaryKey;
  }

  /** The statement's only placeholder is the one before the final `;`, so
      the id is its one bind value, as long as neither name holds a `?`. */
  lemma DeleteSqlPlaceholder(name: string, primaryKey: string)
    requires '?' !in name && '?' !in primaryKey
    ensures var sql := DeleteSql(name, primaryKey);
      forall k :: 0 <= k < |sql| ==> (sql[k] == '?' <==> k == |sql| - 2)
  {
    var front := "delete from " + name + " where " + primaryKey;
    var sql := DeleteSql(name, primaryKey);
    assert sql == front + " = ?;";
    assert '?' !in front;
    forall k | 0 <= k < |sql|
      ensures sql[k] == '?' <==> k == |sql| - 2
    {
      if k < |front| {
        assert sql[k] == front[k];
      }
    }
  }

  /** The delete endpoint's checks, in order: a decodable, non-empty body;
      a non-null `id`; a table with a primary key. What goes on is the
      statement and its bind value. */
  function DeleteGate(body: Body, t: Table): Gate<(string, Json)> {
    if body.Undecodable? || |body.fields| <= 0 then Reject(BadParams)
    else if "id" !in body.fields || body.fields["id"] == JNull then Reject(NeedId)
    else if |t.primaryKeys| <= 0 then Reject(NoPrimaryKey)
    else Proceed((DeleteSql(t.name, t.primaryKeys[0]), body.fields["id"]))
  }

  /** A body that passes the empty-body check of insert and update. */
  predicate NonEmptyBody(body: Body) {
    body.Decoded? && |body.fields| > 0
  }

  /** The delete gate passes exactly a non-empty body with a non-null `id`
      on a table with a primary key; what it passes deletes from that table
      by its first primary key with that `id` bound, and it refuses with the
      message of the first check that fails. */
  lemma DeleteGateDecides(body: Body, t: Table)
    ensures DeleteGate(body, t).Proceed? <==>
      NonEmptyBody(body) && Present(body.fields, "id") && |t.primaryKeys| > 0
    ensures !NonEmptyBody(body) ==> DeleteGate(body, t) == Reject(BadParams)
    ensures NonEmptyBody(body) && !Present(body.fields, "id") ==> DeleteGate(body, t) == Reject(NeedId)
    ensures NonEmptyBody(body) && Present(body.fields, "id") && |t.primaryKeys| == 0 ==>
      DeleteGate(body, t) == Reject(NoPrimaryKey)
    ensures DeleteGate(body, t).Proceed? ==>
      var (sql, id) := DeleteGate(body, t).value;
      && id == body.fields["id"] && id != JNull
      && (' ' !in t.name ==> ParseDelete(sql) == Some((t.name, t.primaryKeys[0])))
  {
    if DeleteGate(body, t).Proceed? && ' ' !in t.name {
      DeleteSqlRoundTrip(t.name, t.primaryKeys[0]);
    }
  }

  // ---------------------------------------------------------------------
  // The insert, update, select and count gates

  /** The empty-body check of insert and update. */
  function WriteGate(body: Body): Gate<Object> {
    if body.Undecodable? || |body.fields| <= 0 then Reject(BadParams) else Proceed(body.fields)
  }

  /** Select and count never refuse: an undecodable body becomes nil
      parameters (`None`). */
  function ReadParams(body: Body): Option<Object> {
    if body.Undecodable? then None else Some(body.fields)
  }

  /** A body the delete endpoint lets through is one insert and update let
      through too, and one they refuse the delete endpoint refuses with the
      same message. */
  lemma DeleteGateRefinesWriteGate(body: Body, t: Table)
    ensures WriteGate(body).Proceed? <==> NonEmptyBody(body)
    ensures DeleteGate(body, t).Proceed? ==> WriteGate(body) == Proceed(body.fields)
    ensures WriteGate(body).Reject? ==> DeleteGate(body, t) == Reject(WriteGate(body).msg)
  {
  }

  // ---------------------------------------------------------------------
  // The handlers' answers

  /** What the database layer answers for a statement: the data for the
      response, or an error message. */
  datatype DbResult = Done(data: Data) | Failed(error: string)

  /** What a handler called on the database with: verb, table and
      parameters. */
  datatype Dispatch = Dispatch(verb: string, table: string, params: Option<Object>)

  /** A handler's answer, and the work it handed to the database, if any. */
  datatype Served<T> = Served(resp: Response, executed: Option<T>)

  /** A gate followed by the database: a refusal is answered with code -1
      and nothing runs; otherwise what the gate passed runs, and its result
      is answered with code 0 and `okMsg`, or with -1 and its error. */
  function Serve<T>(g: Gate<T>, res: DbResult, okMsg: string): (r: Served<T>)
    ensures r.executed.None? <==> g.Reject?
    ensures g.Reject? ==> r.resp == Response(Fail, g.msg, Nil)
    ensures g.Proceed? ==>
      && r.executed == Some(g.value)
      && r.resp == (if res.Done? then Response(Ok, okMsg, res.data) else Response(Fail, res.error, Nil))
  {
    match g
    case Reject(msg) => Served(Response(Fail, msg, Nil), None)
    case Proceed(v) =>
      var resp := match res
        case Done(data) => Response(Ok, okMsg, data)
        case Failed(error) => Response(Fail, error, Nil);
      Served(resp, Some(v))
  }

  /** `/sql`: the checked text is queried, its rows answered. */
  function ServeSql(body: Body, res: DbResult): Served<string> {
    Serve(SqlGate(body), res, "")
  }

  /** `<table>/delete`: the statement runs with the id bound; the number of
      affected rows is answered with `success`. */
  function ServeDelete(body: Body, t: Table, res: DbResult): Served<(string, Json)> {
    Serve(DeleteGate(body, t), res, "success")
  }

  function WriteDispatch(verb: string, t: Table, body: Body): Gate<Dispatch> {
    match WriteGate(body)
    case Reject(msg) => Reject(msg)
    case Proceed(fields) => Proceed(Dispatch(verb, t.name, Some(fields)))
  }

  /** `<table>/insert`. */
  function ServeInsert(body: Body, t: Table, res: DbResult): Served<Dispatch> {
    Serve(WriteDispatch("insert", t, body), res, "")
  }

  /** `<table>/update`. */
  function ServeUpdate(body: Body, t: Table, res: DbResult): Served<Dispatch> {
    Serve(WriteDispatch("update", t, body), res, "success")
  }

  /** `<table>/select`. */
  function ServeSelect(body: Body, t: Table, res: DbResult): Served<Dispatch> {
    Serve(Proceed(Dispatch("select", t.name, ReadParams(body))), res, "")
  }

  /** `<table>/count`. */
  function ServeCount(body: Body, t: Table, res: DbResult): Served<Dispatch> {
    Serve(Proceed(Dispatch("count", t.name, ReadParams(body))), res, "")
  }

  /** `/sql` runs exactly the text its gate passes, and a refused request
      runs nothing and is answered with code -1 and the gate's message. */
  lemma ServeSqlRunsChecked(body: Body, res: DbResult)
    ensures SqlGate(body).Reject? ==>
      ServeSql(body, res) == Served(Response(Fail, SqlGate(body).msg, Nil), None)
    ensures SqlGate(body).Proceed? ==>
      && ServeSql(body, res).executed == Some(TrimSpace(body.fields["sql"].s))
      && !MentionsDelete(ServeSql(body, res).executed.value)
  {
    SqlGateAccepted(body);
    SqlGateDecides(body);
  }

  /** Delete runs nothing unless all three checks pass, and then runs the
      statement on the table's first primary key with the body's `id`. */
  lemma ServeDeleteRunsChecked(body: Body, t: Table, res: DbResult)
    ensures ServeDelete(body, t, res).executed.Some? <==>
      NonEmptyBody(body) && Present(body.fields, "id") && |t.primaryKeys| > 0
    ensures ServeDelete(body, t, res).executed.None? ==> ServeDelete(body, t, res).resp.code == Fail
    ensures ServeDelete(body, t, res).executed.Some? ==>
      ServeDelete(body, t, res).executed.value == (DeleteSql(t.name, t.primaryKeys[0]), body.fields["id"])
  {
    DeleteGateDecides(body, t);
  }

  /** Insert and update refuse an undecodable or empty body with
      `参数错误` and run nothing; otherwise they hand the whole body over. */
  lemma ServeWriteRefusesEmpty(body: Body, t: Table, res: DbResult)
    ensures !NonEmptyBody(body) ==>
      && ServeInsert(body, t, res) == Served(Response(Fail, BadParams, Nil), None)
      && ServeUpdate(body, t, res) == Served(Response(Fail, BadParams, Nil), None)
    ensures NonEmptyBody(body) ==>
      && ServeInsert(body, t, res).executed == Some(Dispatch("insert", t.name, Some(body.fields)))
      && ServeUpdate(body, t, res).executed == Some(Dispatch("update", t.name, Some(body.fields)))
  {
  }

  /** Select and count always run, with nil parameters for an undecodable
      body; so their answer depends only on the database. */
  lemma ServeReadNeverRefuses(body: Body, t: Table, res: DbResult)
    ensures ServeSelect(body, t, res).executed == Some(Dispatch("select", t.name, ReadParams(body)))
    ensures ServeCount(body, t, res).executed == Some(Dispatch("count", t.name, ReadParams(body)))
    ensures ReadParams(body).None? <==> body.Undecodable?
    ensures res.Done? ==> ServeSelect(body, t, res).resp == Response(Ok, "", res.data)
  {
  }
}
