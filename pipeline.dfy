/**
  The sql-api pipeline of dbConfApi.go: the must-parameter check of the
  handler that `registerSqlConfApi` installs, and `ExecSqlConfApi`, which
  seeds a local scope, walks the statements of one catalog entry in order on
  one database session, forwards generated ids into the scope, and applies
  the entry's error policy.

  What a statement does in the database is not modelled: each statement's
  outcome (rows, an exec result with its last-insert-id, an inserted id, or
  an error) is an input, indexed by the statement's position.
*/
module SqlPipeline {
  import opened Text
  import opened Json
  import opened SqlCatalog

  /** The parameter value replaced by a fresh guid on every invocation. */
  const GuidToken := "{{guid}}"
  /** Error for a path with no catalog entry. */
  const NoSuchApi := "没有该路径sqlApi配置"
  /** Suffix of the message naming a missing must parameter. */
  const RequiredSuffix := "为必须参数"

  // ---------------------------------------------------------------------
  // The must check

  predicate AllPresent(must: seq<string>, body: Object) {
    forall k :: 0 <= k < |must| ==> Present(body, must[k])
  }

  /** The loop over `sqlApi.Must` in the handler: the first name that is
      missing from the body or maps to `null`, if any. */
  method FirstMissing(must: seq<string>, body: Object) returns (missing: Option<string>)
    ensures missing.None? <==> AllPresent(must, body)
    ensures missing.Some? ==>
      exists k :: 0 <= k < |must| && must[k] == missing.value
        && !Present(body, must[k]) && AllPresent(must[..k], body)
  {
    for i := 0 to |must|
      invariant AllPresent(must[..i], body)
    {
      var mustParam := must[i];
      if mustParam !in body {
        return Some(mustParam);
      } else if body[mustParam] == JNull {
        return Some(mustParam);
      }
      assert forall k :: 0 <= k < i ==> must[..i + 1][k] == must[..i][k];
    }
    assert must[..|must|] == must;
    return None;
  }

  // ---------------------------------------------------------------------
  // The `${name}` placeholder of a shorthand table (`postReg`)

  /** `${...}` occupies positions `i` to `j` of `t`: the regular expression
      `\$\{(.*?)\}` matches there, `.` not matching a line break. */
  ghost predicate MatchAt(t: string, i: int, j: int) {
    && 0 <= i && i + 2 <= j < |t|
    && t[i] == '$' && t[i + 1] == '{' && t[j] == '}'
    && forall k :: i + 2 <= k < j ==> t[k] != '\n'
  }

  /** The first `}` at or after `q` that no line break precedes. */
  function CloseFrom(t: string, q: nat): (r: Option<nat>)
    requires q <= |t|
    ensures r.Some? ==>
      && q <= r.value < |t| && t[r.value] == '}'
      && forall k :: q <= k < r.value ==> t[k] != '}' && t[k] != '\n'
    ensures r.None? ==> forall j :: q <= j < |t| && t[j] == '}' ==>
      exists k :: q <= k < j && t[k] == '\n'
    decreases |t| - q
  {
    if q == |t| then None
    else if t[q] == '}' then Some(q)
    else if t[q] == '\n' then None
    else CloseFrom(t, q + 1)
  }

  /** The leftmost, shortest match at or after position `p`. */
  function MatchFrom(t: string, p: nat): (r: Option<(nat, nat)>)
    requires p <= |t|
    ensures r.Some? ==>
      && p <= r.value.0 && MatchAt(t, r.value.0, r.value.1)
      && (forall k :: r.value.0 + 2 <= k < r.value.1 ==> t[k] != '}')
      && (forall i, j :: p <= i < r.value.0 ==> !MatchAt(t, i, j))
    ensures r.None? ==> forall i, j :: p <= i ==> !MatchAt(t, i, j)
    decreases |t| - p
  {
    if p + 2 > |t| then None
    else if t[p] == '$' && t[p + 1] == '{' && CloseFrom(t, p + 2).Some? then
      Some((p, CloseFrom(t, p + 2).value))
    else
      var r := MatchFrom(t, p + 1);
      assert forall j :: !MatchAt(t, p, j) by {
        if t[p] == '$' && t[p + 1] == '{' {
          forall j | p + 2 <= j < |t| && t[j] == '}'
            ensures exists k :: p + 2 <= k < j && t[k] == '\n'
          { }
        }
      }
      r
  }

  /** The name inside the first `${...}` of a table attribute
      (`FindAllStringSubmatch(...)[0][1]`), if the pattern matches at all
      (`MatchString`). */
  function TableParam(t: string): Option<string> {
    match MatchFrom(t, 0)
    case None => None
    case Some((i, j)) => Some(t[i + 2..j])
  }

  /** A name is found exactly when the pattern matches; the name found is the
      content of the leftmost match, so it holds neither `}` nor a line
      break, and `${name}` occurs in the table. */
  lemma TableParamSpec(t: string)
    ensures TableParam(t).Some? <==> exists i, j :: MatchAt(t, i, j)
    ensures TableParam(t).Some? ==>
      var name := TableParam(t).value;
      && '}' !in name && '\n' !in name
      && exists i :: OccursAt(t, "${" + name + "}", i)
           && forall i', j' :: MatchAt(t, i', j') ==> i <= i'
  {
    match MatchFrom(t, 0)
    case None =>
    case Some((i, j)) =>
      var name := t[i + 2..j];
      assert t[i..j + 1] == "${" + name + "}";
      assert OccursAt(t, "${" + name + "}", i);
  }

  /** `params[name].(string)` would not panic. */
  predicate TableAssertable(table: string, body: Object) {
    match TableParam(table)
    case None => true
    case Some(name) => name in body ==> body[name].JString?
  }

  /** The table a shorthand statement runs on: a table holding `${name}` is
      replaced as a whole by the request value for `name`, and then by the
      local-scope value for `name`. */
  function ResolveTable(table: string, body: Object, scope: map<string, string>): string
    requires TableAssertable(table, body)
  {
    match TableParam(table)
    case None => table
    case Some(name) =>
      var fromRequest := if name in body then body[name].s else table;
      if name in scope then scope[name] else fromRequest
  }

  /** A table without a placeholder is kept; otherwise the local scope wins
      over the request, and the request over the table as written. */
  lemma ResolveTablePrecedence(table: string, body: Object, scope: map<string, string>)
    requires TableAssertable(table, body)
    ensures var r := ResolveTable(table, body, scope);
      && (TableParam(table).None? ==> r == table)
      && (TableParam(table).Some? ==>
            var name := TableParam(table).value;
            && (name in scope ==> r == scope[name])
            && (name !in scope && name in body ==> r == body[name].s)
            && (name !in scope && name !in body ==> r == table))
  {
  }

  // ---------------------------------------------------------------------
  // Statement outcomes and the reference run

  /** What the statement executor hands back. */
  datatype Value =
    | NoValue
    | QueryRows(rows: seq<Row>)                 // a row list
    | ExecResult(lastInsertId: Option<int>)     // a `sql.Result`; None when LastInsertId fails
    | InsertId(id: int)                         // the id `doInsert` returns

  /** One statement's outcome: its value and its error, if any. */
  datatype Outcome = Outcome(value: Value, error: Option<string>)

  /** The shorthand verbs the pipeline dispatches; any other verb does
      nothing. */
  predicate DoesWork(c: SqlConf) {
    c.hasSql || c.kind == "insert" || c.kind == "select" || c.kind == "update" || c.kind == "delete"
  }

  /** The outcomes fit the statements as Go's static types guarantee: one
      per statement, and an inserted id for every shorthand insert. */
  predicate Fits(api: SqlApi, outcomes: seq<Outcome>) {
    && |outcomes| == |api.sqls|
    && forall i :: 0 <= i < |api.sqls| && !api.sqls[i].hasSql && api.sqls[i].kind == "insert" ==>
         outcomes[i].value.InsertId?
  }

  /** The loop reaches statement `i`: errors are passed over, or no
      dispatched statement before it failed. */
  predicate Reached(api: SqlApi, outcomes: seq<Outcome>, i: nat)
    requires Fits(api, outcomes) && i <= |api.sqls|
  {
    api.passError || NoErrorBefore(api, outcomes, i)
  }

  /** No shorthand statement the loop reaches would fail the string
      assertion of its table placeholder; statements after a fail-fast stop
      are never substituted. */
  predicate ReachedAssertable(api: SqlApi, body: Object, outcomes: seq<Outcome>)
    requires Fits(api, outcomes)
  {
    forall i :: 0 <= i < |api.sqls| && !api.sqls[i].hasSql && Reached(api, outcomes, i) ==>
      TableAssertable(api.sqls[i].table, body)
  }

  predicate WellTyped(api: SqlApi, body: Object, outcomes: seq<Outcome>) {
    Fits(api, outcomes) && ReachedAssertable(api, body, outcomes)
  }

  function IdKey(id: string): string {
    id + ".id"
  }

  /** The scope key a statement with this outcome writes, if any: a
      templated statement whose exec result has a last-insert-id and whose id
      is non-empty, or any shorthand insert. */
  function IdWrite(c: SqlConf, o: Outcome): (r: Option<(string, string)>)
    requires !c.hasSql && c.kind == "insert" ==> o.value.InsertId?
  {
    if c.hasSql then
      if o.value.ExecResult? && o.value.lastInsertId.Some? && |c.id| > 0 then
        Some((IdKey(c.id), IntToDecimal(o.value.lastInsertId.value)))
      else None
    else if c.kind == "insert" then Some((IdKey(c.id), IntToDecimal(o.value.id)))
    else None
  }

  function Forward(c: SqlConf, o: Outcome, scope: map<string, string>): map<string, string>
    requires !c.hasSql && c.kind == "insert" ==> o.value.InsertId?
  {
    match IdWrite(c, o)
    case None => scope
    case Some((k, v)) => scope[k := v]
  }

  /** The rows a statement adds to the result: those of a templated
      statement or a shorthand select that produced a row list. */
  function Contributed(c: SqlConf, o: Outcome): seq<Row> {
    if (c.hasSql || c.kind == "select") && o.value.QueryRows? then o.value.rows else []
  }

  /** One dispatch of a run: the statement's position and the local scope
      as it stood when the statement ran. */
  datatype Visit = Visit(index: nat, scope: map<string, string>)

  /** How a run ends: every statement walked, or stopped by an error. */
  datatype Trace =
    | Completed(scope: map<string, string>, rows: seq<Row>, visits: seq<Visit>)
    | Aborted(rows: seq<Row>, visits: seq<Visit>, error: string, at: nat)

  /** The statement loop from position `i` on, as a function. */
  function RunFrom(api: SqlApi, outcomes: seq<Outcome>, i: nat,
                   scope: map<string, string>, rows: seq<Row>, visits: seq<Visit>): Trace
    requires Fits(api, outcomes) && i <= |api.sqls|
    decreases |api.sqls| - i
  {
    if i == |api.sqls| then Completed(scope, rows, visits)
    else
      var c, o := api.sqls[i], outcomes[i];
      if !DoesWork(c) then RunFrom(api, outcomes, i + 1, scope, rows, visits)
      else
        var visits' := visits + [Visit(i, scope)];
        if o.error.Some? && !api.passError then Aborted(rows, visits', o.error.value, i)
        else RunFrom(api, outcomes, i + 1, Forward(c, o, scope), rows + Contributed(c, o), visits')
  }

  /** The whole run of an entry from a seeded scope. */
  function Pipeline(api: SqlApi, outcomes: seq<Outcome>, seed: map<string, string>): Trace
    requires Fits(api, outcomes)
  {
    RunFrom(api, outcomes, 0, seed, [], [])
  }

  /** What `ExecSqlConfApi` returns for a run: after an error only the rows
      gathered so far; otherwise the rows followed by the scope, when the
      scope is not empty. */
  function Returned(t: Trace): (seq<Row>, Option<string>) {
    match t
    case Aborted(rows, _, error, _) => (rows, Some(error))
    case Completed(scope, rows, _) => (rows + (if |scope| > 0 then [scope] else []), None)
  }

  /** One dispatch on the session: the statement's position and the table
      it named after substitution. */
  datatype Call = Call(index: nat, table: string)

  /** The table statement `i` names when it runs with `scope`: its own for a
      templated statement, the substituted one for a shorthand (and no table
      at all past the last statement). A shorthand whose placeholder
      assertion would fail never runs; its table is then taken as written. */
  function TableOf(api: SqlApi, body: Object, i: nat, scope: map<string, string>): string {
    if i >= |api.sqls| then ""
    else
      var c := api.sqls[i];
      if c.hasSql || !TableAssertable(c.table, body) then c.table else ResolveTable(c.table, body, scope)
  }

  /** The session calls of the visits of a run: one per visit, at the same
      position, naming the table the statement resolves to in the scope it
      saw. */
  function CallsOf(api: SqlApi, body: Object, visits: seq<Visit>): (r: seq<Call>)
    ensures |r| == |visits|
    ensures forall k :: 0 <= k < |r| ==> r[k].index == visits[k].index
  {
    seq(|visits|, k requires 0 <= k < |visits| =>
      Call(visits[k].index, TableOf(api, body, visits[k].index, visits[k].scope)))
  }

  lemma CallsOfSnoc(api: SqlApi, body: Object, visits: seq<Visit>, v: Visit)
    ensures CallsOf(api, body, visits + [v])
         == CallsOf(api, body, visits) + [Call(v.index, TableOf(api, body, v.index, v.scope))]
  {
  }

  // ---------------------------------------------------------------------
  // Independent descriptions of a run

  /** The rows of the first `n` statements, each statement's in turn. */
  function Collected(api: SqlApi, outcomes: seq<Outcome>, n: nat): seq<Row>
    requires n <= |api.sqls| && |outcomes| == |api.sqls|
  {
    if n == 0 then [] else Collected(api, outcomes, n - 1) + Contributed(api.sqls[n - 1], outcomes[n - 1])
  }

  /** The positions among the first `n` whose statements are dispatched. */
  function Dispatchable(sqls: seq<SqlConf>, n: nat): seq<nat>
    requires n <= |sqls|
  {
    if n == 0 then [] else Dispatchable(sqls, n - 1) + (if DoesWork(sqls[n - 1]) then [n - 1] else [])
  }

  function Positions(visits: seq<Visit>): (r: seq<nat>)
    ensures |r| == |visits|
  {
    seq(|visits|, k requires 0 <= k < |visits| => visits[k].index)
  }

  /** None of the dispatched statements among the first `n` failed. */
  predicate NoErrorBefore(api: SqlApi, outcomes: seq<Outcome>, n: nat)
    requires n <= |api.sqls| && |outcomes| == |api.sqls|
  {
    forall j :: 0 <= j < n && DoesWork(api.sqls[j]) ==> outcomes[j].error.None?
  }

  lemma PositionsSnoc(visits: seq<Visit>, v: Visit)
    ensures Positions(visits + [v]) == Positions(visits) + [v.index]
  {
  }

  /** The rows of a run from position `i`, given the rows of the
      statements before `i`: those of every statement when the run completes,
      those of the statements before the failing one when it stops. */
  lemma {:induction false} RunFromRows(api: SqlApi, outcomes: seq<Outcome>, i: nat,
                                       scope: map<string, string>, rows: seq<Row>, visits: seq<Visit>)
    requires Fits(api, outcomes) && i <= |api.sqls|
    requires rows == Collected(api, outcomes, i)
    ensures var t := RunFrom(api, outcomes, i, scope, rows, visits);
      && (t.Completed? ==> t.rows == Collected(api, outcomes, |api.sqls|))
      && (t.Aborted? ==> i <= t.at < |api.sqls| && t.rows == Collected(api, outcomes, t.at))
    decreases |api.sqls| - i
  {
    if i < |api.sqls| {
      var c, o := api.sqls[i], outcomes[i];
      if !DoesWork(c) {
        assert Contributed(c, o) == [];
        assert rows == Collected(api, outcomes, i + 1);
        RunFromRows(api, outcomes, i + 1, scope, rows, visits);
      } else if !(o.error.Some? && !api.passError) {
        var visits' := visits + [Visit(i, scope)];
        assert Collected(api, outcomes, i + 1) == rows + Contributed(c, o);
        RunFromRows(api, outcomes, i + 1, Forward(c, o, scope), rows + Contributed(c, o), visits');
      }
    }
  }

  /** The visits of a run from position `i`, given those before `i`: one
      per statement with a known verb, in order, up to the end when the run
      completes and up to and including the failing statement when it
      stops. */
  lemma {:induction false} RunFromVisits(api: SqlApi, outcomes: seq<Outcome>, i: nat,
                                         scope: map<string, string>, rows: seq<Row>, visits: seq<Visit>)
    requires Fits(api, outcomes) && i <= |api.sqls|
    requires Positions(visits) == Dispatchable(api.sqls, i)
    ensures var t := RunFrom(api, outcomes, i, scope, rows, visits);
      && (t.Completed? ==> Positions(t.visits) == Dispatchable(api.sqls, |api.sqls|))
      && (t.Aborted? ==> i <= t.at < |api.sqls| && Positions(t.visits) == Dispatchable(api.sqls, t.at + 1))
    decreases |api.sqls| - i
  {
    if i < |api.sqls| {
      var c, o := api.sqls[i], outcomes[i];
      if !DoesWork(c) {
        assert Dispatchable(api.sqls, i + 1) == Dispatchable(api.sqls, i);
        RunFromVisits(api, outcomes, i + 1, scope, rows, visits);
      } else {
        var v := Visit(i, scope);
        PositionsSnoc(visits, v);
        assert Positions(visits + [v]) == Dispatchable(api.sqls, i + 1);
        if !(o.error.Some? && !api.passError) {
          RunFromVisits(api, outcomes, i + 1, Forward(c, o, scope), rows + Contributed(c, o), visits + [v]);
        }
      }
    }
  }

  /** How a run from position `i` ends, given that no dispatched statement
      before `i` failed (when errors are not passed over): it completes with
      no failure anywhere, or it stops at the first failing dispatched
      statement. */
  lemma {:induction false} RunFromStops(api: SqlApi, outcomes: seq<Outcome>, i: nat,
                                        scope: map<string, string>, rows: seq<Row>, visits: seq<Visit>)
    requires Fits(api, outcomes) && i <= |api.sqls|
    requires !api.passError ==> NoErrorBefore(api, outcomes, i)
    ensures var t := RunFrom(api, outcomes, i, scope, rows, visits);
      && (t.Completed? ==> (!api.passError ==> NoErrorBefore(api, outcomes, |api.sqls|)))
      && (t.Aborted? ==>
            && !api.passError && i <= t.at < |api.sqls|
            && DoesWork(api.sqls[t.at]) && outcomes[t.at].error == Some(t.error)
            && NoErrorBefore(api, outcomes, t.at))
    decreases |api.sqls| - i
  {
    if i < |api.sqls| {
      var c, o := api.sqls[i], outcomes[i];
      if !DoesWork(c) {
        assert !api.passError ==> NoErrorBefore(api, outcomes, i + 1);
        RunFromStops(api, outcomes, i + 1, scope, rows, visits);
      } else if !(o.error.Some? && !api.passError) {
        assert !api.passError ==> NoErrorBefore(api, outcomes, i + 1);
        RunFromStops(api, outcomes, i + 1, Forward(c, o, scope), rows + Contributed(c, o), visits + [Visit(i, scope)]);
      }
    }
  }

  /** Fail-fast: a run stops exactly when the policy does not pass errors
      over and a dispatched statement fails; it stops at the first such
      statement, after no later statement has run, holding only the rows of
      the statements before it. */
  lemma PipelineStops(api: SqlApi, outcomes: seq<Outcome>, seed: map<string, string>)
    requires Fits(api, outcomes)
    ensures var t := Pipeline(api, outcomes, seed);
      && (t.Aborted? <==> !api.passError && !NoErrorBefore(api, outcomes, |api.sqls|))
      && (t.Aborted? ==>
            && t.at < |api.sqls| && DoesWork(api.sqls[t.at])
            && outcomes[t.at].error == Some(t.error)
            && NoErrorBefore(api, outcomes, t.at)
            && t.rows == Collected(api, outcomes, t.at)
            && Positions(t.visits) == Dispatchable(api.sqls, t.at + 1))
  {
    RunFromRows(api, outcomes, 0, seed, [], []);
    RunFromVisits(api, outcomes, 0, seed, [], []);
    RunFromStops(api, outcomes, 0, seed, [], []);
  }

  /** A run that is not stopped dispatches every statement with a known verb,
      in order, and returns the rows of all of them in order. With errors
      passed over this is every run. */
  lemma PipelineCompletes(api: SqlApi, outcomes: seq<Outcome>, seed: map<string, string>)
    requires Fits(api, outcomes)
    requires api.passError || NoErrorBefore(api, outcomes, |api.sqls|)
    ensures var t := Pipeline(api, outcomes, seed);
      && t.Completed?
      && t.rows == Collected(api, outcomes, |api.sqls|)
      && Positions(t.visits) == Dispatchable(api.sqls, |api.sqls|)
  {
    RunFromRows(api, outcomes, 0, seed, [], []);
    RunFromVisits(api, outcomes, 0, seed, [], []);
    RunFromStops(api, outcomes, 0, seed, [], []);
  }

  /** The scope only grows: seeded keys stay, and each new key is the id key
      of some statement from `i` on. A key not ending in `.id` keeps its
      seeded value. */
  /** Statement `j` is dispatched and its outcome writes scope key `k`. */
  predicate WritesKey(api: SqlApi, outcomes: seq<Outcome>, j: nat, k: string)
    requires Fits(api, outcomes) && j < |api.sqls|
  {
    DoesWork(api.sqls[j]) && IdWrite(api.sqls[j], outcomes[j]) != None && IdWrite(api.sqls[j], outcomes[j]).value.0 == k
  }

  lemma {:induction false} RunFromScope(api: SqlApi, outcomes: seq<Outcome>, i: nat,
                                        scope: map<string, string>, rows: seq<Row>, visits: seq<Visit>)
    requires Fits(api, outcomes) && i <= |api.sqls|
    ensures var t := RunFrom(api, outcomes, i, scope, rows, visits);
      t.Completed? ==>
        && scope.Keys <= t.scope.Keys
        && (forall k :: k in t.scope && (k !in scope || t.scope[k] != scope[k]) ==>
              exists j :: i <= j < |api.sqls| && WritesKey(api, outcomes, j, k))
        && (forall k :: k in scope && !(exists id :: k == IdKey(id)) ==> t.scope[k] == scope[k])
    decreases |api.sqls| - i
  {
    if i < |api.sqls| {
      var c, o := api.sqls[i], outcomes[i];
      if !DoesWork(c) {
        RunFromScope(api, outcomes, i + 1, scope, rows, visits);
      } else if !(o.error.Some? && !api.passError) {
        var fwd := Forward(c, o, scope);
        RunFromScope(api, outcomes, i + 1, fwd, rows + Contributed(c, o), visits + [Visit(i, scope)]);
        var t := RunFrom(api, outcomes, i + 1, fwd, rows + Contributed(c, o), visits + [Visit(i, scope)]);
        forall k | t.Completed? && k in t.scope && (k !in scope || t.scope[k] != scope[k])
          ensures exists j :: i <= j < |api.sqls| && WritesKey(api, outcomes, j, k)
        {
          if !(k !in fwd || t.scope[k] != fwd[k]) {
            assert WritesKey(api, outcomes, i, k);
          }
        }
      }
    }
  }

  lemma PipelineScope(api: SqlApi, outcomes: seq<Outcome>, seed: map<string, string>)
    requires Fits(api, outcomes)
    ensures var t := Pipeline(api, outcomes, seed);
      t.Completed? ==>
        && seed.Keys <= t.scope.Keys
        && (forall k :: k in t.scope && (k !in seed || t.scope[k] != seed[k]) ==>
              exists j :: 0 <= j < |api.sqls| && WritesKey(api, outcomes, j, k))
        && (forall k :: k in seed && !(exists id :: k == IdKey(id)) ==> t.scope[k] == seed[k])
  {
    RunFromScope(api, outcomes, 0, seed, [], []);
  }

  /** Id forwarding: in a completed run, a statement that writes an id key
      and is the last dispatched statement to write that key leaves its
      value in the returned scope. */
  lemma {:induction false} RunFromForwards(api: SqlApi, outcomes: seq<Outcome>, i: nat,
                                           scope: map<string, string>, rows: seq<Row>, visits: seq<Visit>, w: nat)
    requires Fits(api, outcomes) && i <= w < |api.sqls|
    requires DoesWork(api.sqls[w]) && IdWrite(api.sqls[w], outcomes[w]).Some?
    requires forall j :: w < j < |api.sqls| && DoesWork(api.sqls[j]) && IdWrite(api.sqls[j], outcomes[j]).Some? ==>
      IdWrite(api.sqls[j], outcomes[j]).value.0 != IdWrite(api.sqls[w], outcomes[w]).value.0
    ensures var t := RunFrom(api, outcomes, i, scope, rows, visits);
      var kv := IdWrite(api.sqls[w], outcomes[w]).value;
      t.Completed? ==> kv.0 in t.scope && t.scope[kv.0] == kv.1
    decreases |api.sqls| - i
  {
    var c, o := api.sqls[i], outcomes[i];
    var kv := IdWrite(api.sqls[w], outcomes[w]).value;
    if !DoesWork(c) {
      RunFromForwards(api, outcomes, i + 1, scope, rows, visits, w);
    } else if !(o.error.Some? && !api.passError) {
      var visits' := visits + [Visit(i, scope)];
      var scope' := Forward(c, o, scope);
      if i < w {
        RunFromForwards(api, outcomes, i + 1, scope', rows + Contributed(c, o), visits', w);
      } else {
        assert kv.0 in scope' && scope'[kv.0] == kv.1;
        RunFromKeepsKey(api, outcomes, i + 1, scope', rows + Contributed(c, o), visits', kv.0);
      }
    }
  }

  /** A key no later dispatched statement writes keeps its value to the end. */
  lemma {:induction false} RunFromKeepsKey(api: SqlApi, outcomes: seq<Outcome>, i: nat,
                                           scope: map<string, string>, rows: seq<Row>, visits: seq<Visit>, key: string)
    requires Fits(api, outcomes) && i <= |api.sqls| && key in scope
    requires forall j :: i <= j < |api.sqls| && DoesWork(api.sqls[j]) && IdWrite(api.sqls[j], outcomes[j]).Some? ==>
      IdWrite(api.sqls[j], outcomes[j]).value.0 != key
    ensures var t := RunFrom(api, outcomes, i, scope, rows, visits);
      t.Completed? ==> key in t.scope && t.scope[key] == scope[key]
    decreases |api.sqls| - i
  {
    if i < |api.sqls| {
      var c, o := api.sqls[i], outcomes[i];
      if !DoesWork(c) {
        RunFromKeepsKey(api, outcomes, i + 1, scope, rows, visits, key);
      } else if !(o.error.Some? && !api.passError) {
        RunFromKeepsKey(api, outcomes, i + 1, Forward(c, o, scope), rows + Contributed(c, o), visits + [Visit(i, scope)], key);
      }
    }
  }

  lemma PipelineForwardsId(api: SqlApi, outcomes: seq<Outcome>, seed: map<string, string>, w: nat)
    requires Fits(api, outcomes) && w < |api.sqls|
    requires DoesWork(api.sqls[w]) && IdWrite(api.sqls[w], outcomes[w]).Some?
    requires forall j :: w < j < |api.sqls| && DoesWork(api.sqls[j]) && IdWrite(api.sqls[j], outcomes[j]).Some? ==>
      IdWrite(api.sqls[j], outcomes[j]).value.0 != IdWrite(api.sqls[w], outcomes[w]).value.0
    ensures var t := Pipeline(api, outcomes, seed);
      var kv := IdWrite(api.sqls[w], outcomes[w]).value;
      t.Completed? ==> kv.0 in t.scope && t.scope[kv.0] == kv.1
  {
    RunFromForwards(api, outcomes, 0, seed, [], [], w);
  }

  /** An entry without statements returns just its seeded scope, if any. */
  lemma EmptyPipeline(api: SqlApi, outcomes: seq<Outcome>, seed: map<string, string>)
    requires Fits(api, outcomes) && api.sqls == []
    ensures Returned(Pipeline(api, outcomes, seed)) == (if |seed| > 0 then [seed] else [], None)
  {
    assert Pipeline(api, outcomes, seed) == Completed(seed, [], []);
    assert [] + (if |seed| > 0 then [seed] else []) == (if |seed| > 0 then [seed] else []);
  }

  // ---------------------------------------------------------------------
  // The local scope seed

  predicate Distinct(xs: seq<string>) {
    forall a, b :: 0 <= a < b < |xs| ==> xs[a] != xs[b]
  }

  /** The seeded scope has exactly the keys of the parameters; a `{{guid}}`
      value is replaced by a value of the guid supply, different keys getting
      different values when the supply never repeats itself; every other
      value is copied. */
  ghost predicate Seeded(params: map<string, string>, guids: seq<string>, scope: map<string, string>) {
    && scope.Keys == params.Keys
    && (forall k :: k in params && params[k] != GuidToken ==> scope[k] == params[k])
    && (forall k :: k in params && params[k] == GuidToken ==> scope[k] in guids)
    && (Distinct(guids) ==>
          forall k1, k2 ::
            k1 in params && k2 in params && k1 != k2 && params[k1] == GuidToken && params[k2] == GuidToken
            ==> scope[k1] != scope[k2])
  }

  /** The `{{guid}}` loop of `ExecSqlConfApi`. Go visits the map in an
      unspecified order, and so does this loop; `guids` stands for the
      successive results of `middleware.Guid()`. */
  method SeedScope(params: map<string, string>, guids: seq<string>) returns (scope: map<string, string>)
    requires |guids| >= |params.Keys|
    ensures Seeded(params, guids, scope)
  {
    scope := map[];
    var remaining := params.Keys;
    ghost var slot: map<string, nat> := map[];
    var used := 0;
    while remaining != {}
      invariant forall k :: k in params <==> k in remaining || k in scope
      invariant forall k :: k in remaining ==> k !in scope
      invariant used + |remaining| <= |guids|
      invariant forall k :: k in scope && params[k] != GuidToken ==> scope[k] == params[k]
      invariant forall k :: k in scope && params[k] == GuidToken ==>
        k in slot && slot[k] < used && scope[k] == guids[slot[k]]
      invariant forall k :: k in slot ==> slot[k] < used
      invariant forall k1, k2 :: k1 in slot && k2 in slot && k1 != k2 ==> slot[k1] != slot[k2]
      decreases |remaining|
    {
      var k :| k in remaining;
      var v := params[k];
      if v == GuidToken {
        scope := scope[k := guids[used]];
        slot := slot[k := used];
        used := used + 1;
      } else {
        scope := scope[k := v];
      }
      remaining := remaining - {k};
    }
    assert scope.Keys == params.Keys;
    SlotsGiveSeeded(params, guids, scope, slot);
  }

  /** The loop's final state, with `slot` recording which guid each key
      took, meets `Seeded`. */
  lemma SlotsGiveSeeded(params: map<string, string>, guids: seq<string>, scope: map<string, string>,
                        slot: map<string, nat>)
    requires scope.Keys == params.Keys
    requires forall k :: k in scope && params[k] != GuidToken ==> scope[k] == params[k]
    requires forall k :: k in scope && params[k] == GuidToken ==>
      k in slot && slot[k] < |guids| && scope[k] == guids[slot[k]]
    requires forall k1, k2 :: k1 in slot && k2 in slot && k1 != k2 ==> slot[k1] != slot[k2]
    ensures Seeded(params, guids, scope)
  {
    if Distinct(guids) {
      forall k1, k2 | k1 in params && k2 in params && k1 != k2 && params[k1] == GuidToken && params[k2] == GuidToken
        ensures scope[k1] != scope[k2]
      {
        var a, b := slot[k1], slot[k2];
        if a < b {
          assert guids[a] != guids[b];
        } else {
          assert guids[b] != guids[a];
        }
      }
    }
  }

  // ---------------------------------------------------------------------
  // The session and the imperative pipeline

  /** A database session, reduced to what the pipeline does with it. */
  class Session {
    var begun: bool
    var rolledBack: bool
    var committed: bool
    var closed: bool
    var calls: seq<Call>

    /** A session as `NewSession()` hands it out. */
    predicate Idle()
      reads this
    {
      !begun && !rolledBack && !committed && !closed && calls == []
    }

    constructor ()
      ensures Idle()
    {
      begun, rolledBack, committed, closed, calls := false, false, false, false, [];
    }

    method Begin()
      modifies this
      ensures begun && calls == old(calls)
      ensures rolledBack == old(rolledBack) && committed == old(committed) && closed == old(closed)
    {
      begun := true;
    }

    method Rollback()
      modifies this
      ensures rolledBack && calls == old(calls)
      ensures begun == old(begun) && committed == old(committed) && closed == old(closed)
    {
      rolledBack := true;
    }

    method Commit()
      modifies this
      ensures committed && calls == old(calls)
      ensures begun == old(begun) && rolledBack == old(rolledBack) && closed == old(closed)
    {
      committed := true;
    }

    method Close()
      modifies this
      ensures closed && calls == old(calls)
      ensures begun == old(begun) && rolledBack == old(rolledBack) && committed == old(committed)
    {
      closed := true;
    }

    /** One database round trip for one statement. */
    method Run(c: Call)
      modifies this
      ensures calls == old(calls) + [c]
      ensures begun == old(begun) && rolledBack == old(rolledBack)
      ensures committed == old(committed) && closed == old(closed)
    {
      calls := calls + [c];
    }
  }

  /** One pass of the statement loop of `ExecSqlConfApi`: run statement `i`
      on the session, forward its id into the scope and gather its rows, or
      report the error that stops the run, leaving scope and rows as they
      were. `visits` are the run's visits so far, whose calls the session
      holds. */
  method Step(sqlApi: SqlApi, params: Object, outcomes: seq<Outcome>, i: nat, session: Session,
              scope: map<string, string>, rows: seq<Row>, ghost visits: seq<Visit>)
    returns (scope': map<string, string>, rows': seq<Row>, failed: Option<string>, ghost visits': seq<Visit>)
    requires Fits(sqlApi, outcomes) && i < |sqlApi.sqls|
    requires !sqlApi.sqls[i].hasSql ==> TableAssertable(sqlApi.sqls[i].table, params)
    requires session.calls == CallsOf(sqlApi, params, visits)
    modifies session
    ensures session.begun == old(session.begun) && session.rolledBack == old(session.rolledBack)
    ensures session.committed == old(session.committed) && session.closed == old(session.closed)
    ensures session.calls == old(session.calls)
      + (if DoesWork(sqlApi.sqls[i]) then [Call(i, TableOf(sqlApi, params, i, scope))] else [])
    ensures session.calls == CallsOf(sqlApi, params, visits')
    ensures failed.Some? <==> DoesWork(sqlApi.sqls[i]) && outcomes[i].error.Some? && !sqlApi.passError
    ensures failed.Some? ==> failed == outcomes[i].error
    ensures failed.None? ==>
      RunFrom(sqlApi, outcomes, i, scope, rows, visits) == RunFrom(sqlApi, outcomes, i + 1, scope', rows', visits')
    ensures failed.Some? ==>
      && rows' == rows
      && RunFrom(sqlApi, outcomes, i, scope, rows, visits) == Aborted(rows, visits', failed.value, i)
  {
    if sqlApi.sqls[i].hasSql {
      scope', rows', failed, visits' := StepTemplated(sqlApi, params, outcomes, i, session, scope, rows, visits);
    } else {
      scope', rows', failed, visits' := StepShorthand(sqlApi, params, outcomes, i, session, scope, rows, visits);
    }
  }

  /** A templated statement: executed as written; its last-insert-id is
      forwarded when it has one and the statement has an id. */
  method StepTemplated(sqlApi: SqlApi, params: Object, outcomes: seq<Outcome>, i: nat, session: Session,
                       scope: map<string, string>, rows: seq<Row>, ghost visits: seq<Visit>)
    returns (scope': map<string, string>, rows': seq<Row>, failed: Option<string>, ghost visits': seq<Visit>)
    requires Fits(sqlApi, outcomes) && i < |sqlApi.sqls| && sqlApi.sqls[i].hasSql
    requires session.calls == CallsOf(sqlApi, params, visits)
    modifies session
    ensures session.begun == old(session.begun) && session.rolledBack == old(session.rolledBack)
    ensures session.committed == old(session.committed) && session.closed == old(session.closed)
    ensures session.calls == old(session.calls) + [Call(i, TableOf(sqlApi, params, i, scope))]
    ensures session.calls == CallsOf(sqlApi, params, visits')
    ensures failed.Some? <==> DoesWork(sqlApi.sqls[i]) && outcomes[i].error.Some? && !sqlApi.passError
    ensures failed.Some? ==> failed == outcomes[i].error
    ensures failed.None? ==>
      RunFrom(sqlApi, outcomes, i, scope, rows, visits) == RunFrom(sqlApi, outcomes, i + 1, scope', rows', visits')
    ensures failed.Some? ==>
      && rows' == rows
      && RunFrom(sqlApi, outcomes, i, scope, rows, visits) == Aborted(rows, visits', failed.value, i)
  {
    var sqlInstance, o := sqlApi.sqls[i], outcomes[i];
    scope', rows', failed := scope, rows, None;
    visits' := visits + [Visit(i, scope)];
    CallsOfSnoc(sqlApi, params, visits, Visit(i, scope));
    session.Run(Call(i, sqlInstance.table));
    if o.error.Some? && !sqlApi.passError {
      return scope, rows, o.error, visits';
    }
    if o.value.ExecResult? {
      if o.value.lastInsertId.Some? && |sqlInstance.id| > 0 {
        scope' := scope'[IdKey(sqlInstance.id) := IntToDecimal(o.value.lastInsertId.value)];
      }
    }
    if o.value.QueryRows? {
      rows' := rows' + o.value.rows;
    }
    assert scope' == Forward(sqlInstance, o, scope);
    assert rows' == rows + Contributed(sqlInstance, o);
  }

  /** A shorthand statement: its table is substituted, then a known verb is
      run on it; an insert forwards the id it returns, a select gathers its
      rows. */
  method StepShorthand(sqlApi: SqlApi, params: Object, outcomes: seq<Outcome>, i: nat, session: Session,
                       scope: map<string, string>, rows: seq<Row>, ghost visits: seq<Visit>)
    returns (scope': map<string, string>, rows': seq<Row>, failed: Option<string>, ghost visits': seq<Visit>)
    requires Fits(sqlApi, outcomes) && i < |sqlApi.sqls| && !sqlApi.sqls[i].hasSql
    requires TableAssertable(sqlApi.sqls[i].table, params)
    requires session.calls == CallsOf(sqlApi, params, visits)
    modifies session
    ensures session.begun == old(session.begun) && session.rolledBack == old(session.rolledBack)
    ensures session.committed == old(session.committed) && session.closed == old(session.closed)
    ensures session.calls == old(session.calls)
      + (if DoesWork(sqlApi.sqls[i]) then [Call(i, TableOf(sqlApi, params, i, scope))] else [])
    ensures session.calls == CallsOf(sqlApi, params, visits')
    ensures failed.Some? <==> DoesWork(sqlApi.sqls[i]) && outcomes[i].error.Some? && !sqlApi.passError
    ensures failed.Some? ==> failed == outcomes[i].error
    ensures failed.None? ==>
      RunFrom(sqlApi, outcomes, i, scope, rows, visits) == RunFrom(sqlApi, outcomes, i + 1, scope', rows', visits')
    ensures failed.Some? ==>
      && rows' == rows
      && RunFrom(sqlApi, outcomes, i, scope, rows, visits) == Aborted(rows, visits', failed.value, i)
  {
    var sqlInstance, o := sqlApi.sqls[i], outcomes[i];
    scope', rows', failed, visits' := scope, rows, None, visits;
    var table := sqlInstance.table;
    var tableParam := TableParam(table);
    if tableParam.Some? {
      var tableParamName := tableParam.value;
      if tableParamName in params {
        table := params[tableParamName].s;
      }
      if tableParamName in scope {
        table := scope[tableParamName];
      }
    }
    assert table == TableOf(sqlApi, params, i, scope);

    if DoesWork(sqlInstance) {
      visits' := visits + [Visit(i, scope)];
      CallsOfSnoc(sqlApi, params, visits, Visit(i, scope));
      session.Run(Call(i, table));
      if o.error.Some? && !sqlApi.passError {
        return scope, rows, o.error, visits';
      }
      if sqlInstance.kind == "insert" {
        scope' := scope'[IdKey(sqlInstance.id) := IntToDecimal(o.value.id)];
      } else if sqlInstance.kind == "select" {
        if o.value.QueryRows? {
          rows' := rows' + o.value.rows;
        }
      }
      assert scope' == Forward(sqlInstance, o, scope);
      assert rows' == rows + Contributed(sqlInstance, o);
    }
  }

  /** `ExecSqlConfApi(params, path)`. The catalog, the session the engine
      hands out, the statements' outcomes and the guid supply are inputs;
      `seed` names the scope the run started from. */
  method ExecSqlConfApi(catalog: map<string, SqlApi>, params: Object, path: string, session: Session,
                        outcomes: seq<Outcome>, guids: seq<string>)
    returns (result: seq<Row>, err: Option<string>, ghost seed: map<string, string>)
    requires path in catalog ==>
      WellTyped(catalog[path], params, outcomes) && |guids| >= |catalog[path].params.Keys|
    requires session.Idle()
    modifies session
    ensures path !in catalog ==> result == [] && err == Some(NoSuchApi) && unchanged(session)
    ensures path in catalog ==>
      var api := catalog[path];
      var t := Pipeline(api, outcomes, seed);
      && Seeded(api.params, guids, seed)
      && (result, err) == Returned(t)
      && session.calls == CallsOf(api, params, t.visits)
      && session.closed
      && session.begun == api.transaction
      && session.rolledBack == (api.transaction && t.Aborted?)
      && session.committed == (api.transaction && t.Completed?)
  {
    if path !in catalog {
      return [], Some(NoSuchApi), map[];
    }
    var sqlApi := catalog[path];
    var sqlApiParams := SeedScope(sqlApi.params, guids);
    seed := sqlApiParams;

    if sqlApi.transaction {
      session.Begin();
    }
    var failed;
    ghost var visits;
    sqlApiParams, result, failed, visits := RunStatements(sqlApi, params, outcomes, session, sqlApiParams);
    if failed.Some? {
      if sqlApi.transaction {
        session.Rollback();
      }
      session.Close();
      return result, failed, seed;
    }
    ghost var t := Completed(sqlApiParams, result, visits);
    assert Pipeline(sqlApi, outcomes, seed) == t;
    if |sqlApiParams| > 0 {
      result := result + [sqlApiParams];
    }
    assert result == Returned(t).0;
    if sqlApi.transaction {
      session.Commit();
    }
    session.Close();
    err := None;
  }

  /** The statement loop of `ExecSqlConfApi` (dbConfApi.go:161-245) on a
      session with no calls yet: it ends as the reference run from `seed`
      does, leaving the session's flags alone. */
  method RunStatements(sqlApi: SqlApi, params: Object, outcomes: seq<Outcome>, session: Session,
                       seed: map<string, string>)
    returns (scope: map<string, string>, rows: seq<Row>, failed: Option<string>, ghost visits: seq<Visit>)
    requires WellTyped(sqlApi, params, outcomes)
    requires session.calls == []
    modifies session
    ensures session.begun == old(session.begun) && session.rolledBack == old(session.rolledBack)
    ensures session.committed == old(session.committed) && session.closed == old(session.closed)
    ensures session.calls == CallsOf(sqlApi, params, visits)
    ensures var t := Pipeline(sqlApi, outcomes, seed);
      && t.visits == visits
      && (failed.None? <==> t.Completed?)
      && (t.Completed? ==> t == Completed(scope, rows, visits))
      && (t.Aborted? ==> rows == t.rows && failed == Some(t.error))
  {
    scope, rows, failed, visits := seed, [], None, [];
    var i := 0;
    while i < |sqlApi.sqls|
      invariant i <= |sqlApi.sqls|
      invariant session.begun == old(session.begun) && session.rolledBack == old(session.rolledBack)
      invariant session.committed == old(session.committed) && session.closed == old(session.closed)
      invariant session.calls == CallsOf(sqlApi, params, visits)
      invariant failed.None?
      invariant !sqlApi.passError ==> NoErrorBefore(sqlApi, outcomes, i)
      invariant RunFrom(sqlApi, outcomes, i, scope, rows, visits) == Pipeline(sqlApi, outcomes, seed)
    {
      scope, rows, failed, visits := Step(sqlApi, params, outcomes, i, session, scope, rows, visits);
      if failed.Some? {
        return;
      }
      i := i + 1;
    }
  }

  /** The body a sql-api handler works on: an undecodable body counts as an
      empty object. */
  function RequestFields(body: Body): Object {
    if body.Decoded? then body.fields else map[]
  }

  /** The handler `registerSqlConfApi` installs for `api`: the must check,
      then the pipeline, then the response envelope. A missing must
      parameter is answered with code -1 before the session is touched. */
  method ServeSqlApi(api: SqlApi, catalog: map<string, SqlApi>, body: Body, session: Session,
                     outcomes: seq<Outcome>, guids: seq<string>)
    returns (resp: Response, ghost seed: map<string, string>)
    requires AllPresent(api.must, RequestFields(body)) && api.path in catalog ==>
      WellTyped(catalog[api.path], RequestFields(body), outcomes) && |guids| >= |catalog[api.path].params.Keys|
    requires session.Idle()
    modifies session
    ensures !AllPresent(api.must, RequestFields(body)) ==>
      && unchanged(session) && resp.code == Fail && resp.data == Nil
      && exists k :: 0 <= k < |api.must| && resp.msg == api.must[k] + RequiredSuffix
           && !Present(RequestFields(body), api.must[k]) && AllPresent(api.must[..k], RequestFields(body))
    ensures AllPresent(api.must, RequestFields(body)) && api.path !in catalog ==>
      resp == Response(Fail, NoSuchApi, Nil)
    ensures AllPresent(api.must, RequestFields(body)) && api.path in catalog ==>
      var t := Pipeline(catalog[api.path], outcomes, seed);
      && Seeded(catalog[api.path].params, guids, seed)
      && session.calls == CallsOf(catalog[api.path], RequestFields(body), t.visits)
      && resp == match t
           case Completed(_, _, _) => Response(Ok, "", Rows(Returned(t).0))
           case Aborted(_, _, error, _) => Response(Fail, error, Nil)
  {
    var jsonData := RequestFields(body);
    var missing := FirstMissing(api.must, jsonData);
    if missing.Some? {
      return Response(Fail, missing.value + RequiredSuffix, Nil), map[];
    }
    var res, err;
    res, err, seed := ExecSqlConfApi(catalog, jsonData, api.path, session, outcomes, guids);
    if err.Some? {
      resp := Response(Fail, err.value, Nil);
    } else {
      resp := Response(Ok, "", Rows(res));
    }
  }
}
