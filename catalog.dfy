/**
  Compilation of the `<sqlApi>` catalog (`InitSqlConfApi` in dbConfApi.go).

  The XML file itself is read by a collaborator; here each `<sqlApi>` element
  arrives as a record holding its attributes and, in document order, its
  `<param>`, `<sql>` and `<must>` descendants. Each is compiled into a
  `SqlApi` and stored in the catalog under its path; every entry with a
  non-empty path is also registered as a route.
*/
module SqlCatalog {
  import opened Text
  import Maps

  /** One XML element: its attributes and its text. */
  datatype Element = Element(attrs: map<string, string>, text: string)

  /** One `<sqlApi>` element and its descendants, in document order. */
  datatype ApiElement = ApiElement(
    attrs: map<string, string>,
    params: seq<Element>,
    sqls: seq<Element>,
    musts: seq<Element>)

  /** `SelectAttrValue(name, default)`: the attribute, or the default when the
      element has no such attribute. */
  function AttrOr(attrs: map<string, string>, name: string, default: string): string {
    if name in attrs then attrs[name] else default
  }

  /** One statement of a pipeline. A templated statement (`hasSql`) keeps the
      trimmed text that is handed to the template parser; a shorthand one
      names a verb (`kind`) and a table. */
  datatype SqlConf = SqlConf(
    hasSql: bool,
    kind: string,
    table: string,
    id: string,
    text: string)

  /** One compiled catalog entry. */
  datatype SqlApi = SqlApi(
    path: string,
    transaction: bool,
    passError: bool,
    sqls: seq<SqlConf>,
    params: map<string, string>,
    must: seq<string>)

  const TrueText := "true"

  /** The `i`-th `<sql>` element of an entry, compiled. */
  function CompileSql(i: nat, e: Element): (c: SqlConf)
    ensures c.table == AttrOr(e.attrs, "table", "")
    ensures "id" in e.attrs ==> c.id == e.attrs["id"]
    ensures "id" !in e.attrs ==> c.id == NatToDecimal(i)
    ensures c.hasSql <==> !AllSpace(e.text)
    ensures c.text == TrimSpace(e.text)
    ensures c.kind == if c.hasSql then "" else AttrOr(e.attrs, "type", "")
  {
    var body := TrimSpace(e.text);
    var blank := |body| <= 0;
    SqlConf(
      hasSql := !blank,
      kind := if blank then AttrOr(e.attrs, "type", "") else "",
      table := AttrOr(e.attrs, "table", ""),
      id := AttrOr(e.attrs, "id", NatToDecimal(i)),
      text := body)
  }

  /** A statement without an `id` attribute is named by its zero-based
      position, written in decimal. */
  lemma DefaultIdIsIndex(i: nat, e: Element)
    requires "id" !in e.attrs
    ensures var id := CompileSql(i, e).id;
      && (forall k :: 0 <= k < |id| ==> IsDigit(id[k]))
      && DecimalValue(id) == i
  {
    DecimalRoundTrip(i);
  }

  /** The statements of an entry, one per `<sql>` element, in document order. */
  function CompileSqls(sqls: seq<Element>): (r: seq<SqlConf>)
    ensures |r| == |sqls|
  {
    seq(|sqls|, i requires 0 <= i < |sqls| => CompileSql(i, sqls[i]))
  }

  /** The assignments `Params[key] = value` made by the `<param>` elements. */
  function ParamPairs(ps: seq<Element>): (r: seq<(string, string)>)
    ensures |r| == |ps|
  {
    seq(|ps|, k requires 0 <= k < |ps| =>
      (AttrOr(ps[k].attrs, "key", ""), AttrOr(ps[k].attrs, "value", "")))
  }

  /** The names one `<must>` element contributes: nothing when its text is
      blank, otherwise the comma-separated pieces of the trimmed text,
      each piece left as it is. */
  function MustPieces(e: Element): (r: seq<string>)
    ensures AllSpace(e.text) ==> r == []
    ensures !AllSpace(e.text) ==> |r| >= 1 && Join(r, ',') == TrimSpace(e.text)
    ensures forall k :: 0 <= k < |r| ==> ',' !in r[k]
  {
    var content := e.text;
    if |content| > 0 && |TrimSpace(content)| > 0 then Split(TrimSpace(content), ',') else []
  }

  /** The must list of an entry: the pieces of every `<must>` in order. */
  function MustList(ms: seq<Element>): seq<string> {
    if ms == [] then [] else MustList(ms[..|ms| - 1]) + MustPieces(ms[|ms| - 1])
  }

  lemma MustListSnoc(ms: seq<Element>, i: nat)
    requires i < |ms|
    ensures MustList(ms[..i + 1]) == MustList(ms[..i]) + MustPieces(ms[i])
  {
    assert ms[..i + 1][..i] == ms[..i];
  }

  /** No name of the must list holds a comma, and blank `<must>` elements
      leave the list as it is. */
  lemma {:induction false} MustListShape(ms: seq<Element>)
    ensures forall k :: 0 <= k < |MustList(ms)| ==> ',' !in MustList(ms)[k]
    ensures (forall k :: 0 <= k < |ms| ==> AllSpace(ms[k].text)) ==> MustList(ms) == []
  {
    if ms != [] {
      var n := |ms| - 1;
      MustListShape(ms[..n]);
      assert forall k :: 0 <= k < n ==> ms[..n][k] == ms[k];
    }
  }

  /** The compiled form of one `<sqlApi>` element. */
  function Compiled(e: ApiElement): SqlApi {
    SqlApi(
      path := AttrOr(e.attrs, "path", ""),
      transaction := AttrOr(e.attrs, "transaction", "") == TrueText,
      passError := AttrOr(e.attrs, "passError", "") == TrueText,
      sqls := CompileSqls(e.sqls),
      params := Maps.Assign(ParamPairs(e.params)),
      must := MustList(e.musts))
  }

  /** The parameter map has one key per distinct `key` attribute, holding the
      value of the last `<param>` with that key. */
  lemma CompiledParams(e: ApiElement, i: nat)
    requires i < |e.params|
    requires forall j :: i < j < |e.params| ==>
      AttrOr(e.params[j].attrs, "key", "") != AttrOr(e.params[i].attrs, "key", "")
    ensures var key := AttrOr(e.params[i].attrs, "key", "");
      && key in Compiled(e).params
      && Compiled(e).params[key] == AttrOr(e.params[i].attrs, "value", "")
  {
    Maps.AssignLastWins(ParamPairs(e.params), i);
  }

  lemma CompiledParamKeys(e: ApiElement)
    ensures Compiled(e).params.Keys
      == set k | 0 <= k < |e.params| :: AttrOr(e.params[k].attrs, "key", "")
  {
    var pairs := ParamPairs(e.params);
    Maps.AssignKeys(pairs);
    assert forall k :: 0 <= k < |e.params| ==> pairs[k].0 == AttrOr(e.params[k].attrs, "key", "");
  }

  /** The `<param>` loop of `InitSqlConfApi`. */
  method CompileParams(ps: seq<Element>) returns (params: map<string, string>)
    ensures params == Maps.Assign(ParamPairs(ps))
  {
    params := map[];
    var i := 0;
    while i < |ps|
      invariant i <= |ps|
      invariant params == Maps.Assign(ParamPairs(ps)[..i])
    {
      var key, value := AttrOr(ps[i].attrs, "key", ""), AttrOr(ps[i].attrs, "value", "");
      Maps.AssignSnoc(ParamPairs(ps)[..i], key, value);
      assert ParamPairs(ps)[..i + 1] == ParamPairs(ps)[..i] + [(key, value)];
      params := params[key := value];
      i := i + 1;
    }
    assert ParamPairs(ps)[..i] == ParamPairs(ps);
  }

  /** The `<sql>` loop of `InitSqlConfApi`. */
  method CompileSqlList(els: seq<Element>) returns (sqls: seq<SqlConf>)
    ensures sqls == CompileSqls(els)
  {
    sqls := [];
    var i := 0;
    while i < |els|
      invariant i <= |els|
      invariant sqls == CompileSqls(els[..i])
    {
      var sqlEle := els[i];
      var sqlStr := TrimSpace(sqlEle.text);
      var one := SqlConf(false, "", AttrOr(sqlEle.attrs, "table", ""),
                         AttrOr(sqlEle.attrs, "id", NatToDecimal(i)), sqlStr);
      if |sqlStr| <= 0 {
        one := one.(hasSql := false, kind := AttrOr(sqlEle.attrs, "type", ""));
      } else {
        one := one.(hasSql := true);
      }
      CompileSqlsSnoc(els, i);
      sqls := sqls + [one];
      i := i + 1;
    }
    assert els[..i] == els;
  }

  lemma CompileSqlsSnoc(els: seq<Element>, i: nat)
    requires i < |els|
    ensures CompileSqls(els[..i + 1]) == CompileSqls(els[..i]) + [CompileSql(i, els[i])]
  {
  }

  /** `for _, x := range xs { acc = append(acc, x) }` */
  method AppendEach(acc: seq<string>, xs: seq<string>) returns (r: seq<string>)
    ensures r == acc + xs
  {
    r := acc;
    var j := 0;
    while j < |xs|
      invariant j <= |xs|
      invariant r == acc + xs[..j]
    {
      assert xs[..j + 1] == xs[..j] + [xs[j]];
      r := r + [xs[j]];
      j := j + 1;
    }
    assert xs[..j] == xs;
  }

  /** The `<must>` loop of `InitSqlConfApi`. */
  method CompileMust(ms: seq<Element>) returns (must: seq<string>)
    ensures must == MustList(ms)
  {
    must := [];
    var i := 0;
    while i < |ms|
      invariant i <= |ms|
      invariant must == MustList(ms[..i])
    {
      MustListSnoc(ms, i);
      var mustContent := ms[i].text;
      var trimmed := TrimSpace(mustContent);
      if |mustContent| > 0 && |trimmed| > 0 {
        var mustParams := Split(trimmed, ',');
        must := AppendEach(must, mustParams);
      }
      i := i + 1;
    }
    assert ms[..i] == ms;
  }

  /** `InitSqlConfApi` for one `<sqlApi>` element. */
  method CompileApi(e: ApiElement) returns (api: SqlApi)
    ensures api == Compiled(e)
  {
    var transaction := AttrOr(e.attrs, "transaction", "") == TrueText;
    var passError := AttrOr(e.attrs, "passError", "") == TrueText;
    var path := AttrOr(e.attrs, "path", "");
    var params := CompileParams(e.params);
    var sqls := CompileSqlList(e.sqls);
    var must := CompileMust(e.musts);
    api := SqlApi(path, transaction, passError, sqls, params, must);
  }

  /** Every `<sqlApi>` element of a file, compiled, in document order. */
  function CompileAll(es: seq<ApiElement>): (r: seq<SqlApi>)
    ensures |r| == |es|
  {
    seq(|es|, i requires 0 <= i < |es| => Compiled(es[i]))
  }

  /** The catalog after storing each entry under its path
      (`sqlApis[sqlApi.Path] = sqlApi`), later entries replacing earlier
      ones with the same path. */
  function Install(catalog: map<string, SqlApi>, apis: seq<SqlApi>): map<string, SqlApi> {
    if apis == [] then catalog
    else
      var last := apis[|apis| - 1];
      Install(catalog, apis[..|apis| - 1])[last.path := last]
  }

  /** A path holds the last entry declaring it. */
  lemma {:induction false} InstallLastWins(catalog: map<string, SqlApi>, apis: seq<SqlApi>, i: nat)
    requires i < |apis|
    requires forall j :: i < j < |apis| ==> apis[j].path != apis[i].path
    ensures apis[i].path in Install(catalog, apis)
    ensures Install(catalog, apis)[apis[i].path] == apis[i]
  {
    var n := |apis| - 1;
    if i < n {
      assert apis[..n][i] == apis[i];
      InstallLastWins(catalog, apis[..n], i);
    }
  }

  /** A path no entry declares keeps what the catalog held before, so
      loading a file adds to the catalog rather than replacing it. */
  lemma {:induction false} InstallKeeps(catalog: map<string, SqlApi>, apis: seq<SqlApi>, path: string)
    requires forall j :: 0 <= j < |apis| ==> apis[j].path != path
    ensures path in Install(catalog, apis) <==> path in catalog
    ensures path in catalog ==> Install(catalog, apis)[path] == catalog[path]
  {
    if apis != [] {
      var n := |apis| - 1;
      assert forall j :: 0 <= j < n ==> apis[..n][j] == apis[j];
      InstallKeeps(catalog, apis[..n], path);
    }
  }

  /** The entries `registerSqlConfApi` turns into routes: those with a
      non-empty path, in document order. */
  function Routes(apis: seq<SqlApi>): seq<SqlApi> {
    if apis == [] then []
    else
      var n := |apis| - 1;
      var front := Routes(apis[..n]);
      if |apis[n].path| > 0 then front + [apis[n]] else front
  }

  /** Every route has a path and is one of the entries; every entry with a
      path is a route. */
  lemma {:induction false} RoutesExactly(apis: seq<SqlApi>)
    ensures forall k :: 0 <= k < |Routes(apis)| ==> |Routes(apis)[k].path| > 0 && Routes(apis)[k] in apis
    ensures forall i :: 0 <= i < |apis| && |apis[i].path| > 0 ==> apis[i] in Routes(apis)
  {
    if apis != [] {
      var n := |apis| - 1;
      RoutesExactly(apis[..n]);
      assert forall i :: 0 <= i < n ==> apis[..n][i] == apis[i];
      assert apis == apis[..n] + [apis[n]];
    }
  }

  /** `InitSqlConfApi` over the elements of one catalog file: the new
      catalog, and the entries registered as routes. */
  method InitSqlConfApi(catalog: map<string, SqlApi>, es: seq<ApiElement>)
    returns (catalog': map<string, SqlApi>, routes: seq<SqlApi>)
    ensures catalog' == Install(catalog, CompileAll(es))
    ensures routes == Routes(CompileAll(es))
  {
    ghost var all := CompileAll(es);
    catalog', routes := catalog, [];
    var i := 0;
    while i < |es|
      invariant i <= |es|
      invariant catalog' == Install(catalog, all[..i])
      invariant routes == Routes(all[..i])
    {
      var api := CompileApi(es[i]);
      assert all[..i + 1] == all[..i] + [api];
      InstallSnoc(catalog, all[..i], api);
      RoutesSnoc(all[..i], api);
      catalog' := catalog'[api.path := api];
      if |api.path| > 0 {
        routes := routes + [api];
      }
      i := i + 1;
    }
    assert all[..i] == all;
  }

  lemma InstallSnoc(catalog: map<string, SqlApi>, apis: seq<SqlApi>, api: SqlApi)
    ensures Install(catalog, apis + [api]) == Install(catalog, apis)[api.path := api]
  {
    assert (apis + [api])[..|apis|] == apis;
  }

  lemma RoutesSnoc(apis: seq<SqlApi>, api: SqlApi)
    ensures Routes(apis + [api]) == Routes(apis) + (if |api.path| > 0 then [api] else [])
  {
    assert (apis + [api])[..|apis|] == apis;
  }
}
