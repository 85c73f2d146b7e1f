/**
 * The Airtable client of src/lib/airtable.ts: constructor guard, response
 * handling, result shaping of the metadata endpoints, query building for a
 * page of records, and the cursor-following loop that fetches every page.
 * Network traffic is not modelled: every response is an input.
 */
module Airtable {
  import opened Wrappers
  import opened Strings
  import opened Http

  /** The service's fixed API root. */
  const ApiBaseUrl := "https://api.airtable.com/v0"

  /** The page size `getAllRecords` asks for on every request. */
  const AllRecordsPageSize := 100

  datatype Base = Base(id: string, name: string, permissionLevel: string)

  /** A field of a table's schema (its free-form `options` object is not modelled). */
  datatype Field = Field(id: string, name: string, fieldType: string, description: Option<string>)

  /** A table as the metadata endpoint returns it, with its fields. */
  datatype TableSchema =
    TableSchema(id: string, name: string, description: Option<string>, primaryFieldId: string, fields: seq<Field>)

  /** `AirtableTable`: the shape `getTables` hands to the wizard. */
  datatype TableSummary =
    TableSummary(id: string, name: string, description: string, primaryFieldId: string, recordCount: int)

  datatype TableDetails = TableDetails(table: TableSummary, fields: seq<Field>)

  /** The service holds only the trimmed token; its base URL is the constant `ApiBaseUrl`. */
  datatype AirtableService = AirtableService(token: string)

  /** `new AirtableService(token)`: throws on a blank token, otherwise keeps it trimmed. */
  function NewAirtableService(token: string): (r: Result<AirtableService, Error>)
    ensures r.Success? <==> !IsBlank(token)
    ensures r.Failure? ==> r.error == MissingToken(AirtableApi)
    ensures r.Success? ==> r.value.token == Trim(token) && r.value.token != [] && IsTrimmed(r.value.token)
  {
    if IsBlank(token) then Failure(MissingToken(AirtableApi)) else Success(AirtableService(Trim(token)))
  }

  /** `handleResponse`: a non-ok response becomes an error carrying its status; otherwise the body. */
  function HandleResponse<B>(resp: Response<B>): (r: Result<B, Error>)
    ensures r.Success? <==> resp.Ok()
    ensures r.Success? ==> r.value == resp.body
    ensures r.Failure? ==> r.error == ApiError(AirtableApi, resp.status, resp.statusText)
  {
    if resp.Ok() then Success(resp.body) else Failure(ApiError(AirtableApi, resp.status, resp.statusText))
  }

  /** `getBases`: the bases of the response, one for one and in order. */
  function GetBases(resp: Response<seq<Base>>): (r: Result<seq<Base>, Error>)
    ensures r.Success? <==> resp.Ok()
    ensures r.Failure? ==> r.error == ApiError(AirtableApi, resp.status, resp.statusText)
    ensures r.Success? ==> |r.value| == |resp.body| && forall i :: 0 <= i < |r.value| ==> r.value[i] == resp.body[i]
  {
    HandleResponse(resp)
  }

  /** `validateToken`: whether listing the bases succeeds; it never fails itself. */
  function ValidateToken(resp: Response<seq<Base>>): (valid: bool)
    ensures valid <==> resp.Ok()
  {
    GetBases(resp).Success?
  }

  /** `validateAirtableToken`: false when the constructor throws, otherwise `validateToken`. */
  function ValidateAirtableToken(token: string, resp: Response<seq<Base>>): (valid: bool)
    ensures valid <==> !IsBlank(token) && resp.Ok()
  {
    match NewAirtableService(token)
    case Failure(_) => false
    case Success(_) => ValidateToken(resp)
  }

  /** `s` is what `getTables` makes of the raw table `t`. */
  ghost predicate IsSummaryOf(t: TableSchema, s: TableSummary) {
    && s.id == t.id
    && s.name == t.name
    && s.description == (if t.description.Some? then t.description.value else "")
    && s.primaryFieldId == t.primaryFieldId
    && s.recordCount == 0
  }

  function Summarize(t: TableSchema): (s: TableSummary)
    ensures IsSummaryOf(t, s)
  {
    TableSummary(t.id, t.name, t.description.GetOr(""), t.primaryFieldId, 0)
  }

  function Summaries(ts: seq<TableSchema>): (r: seq<TableSummary>)
    ensures |r| == |ts|
    ensures forall i :: 0 <= i < |ts| ==> IsSummaryOf(ts[i], r[i])
  {
    if ts == [] then [] else [Summarize(ts[0])] + Summaries(ts[1..])
  }

  /** `getTables`: rejects a blank base id, then maps every table one for one, in order. */
  function GetTables(baseId: string, resp: Response<seq<TableSchema>>): (r: Result<seq<TableSummary>, Error>)
    ensures IsBlank(baseId) ==> r == Failure(MissingBaseId)
    ensures !IsBlank(baseId) ==> (r.Success? <==> resp.Ok())
    ensures !IsBlank(baseId) && !resp.Ok() ==> r == Failure(ApiError(AirtableApi, resp.status, resp.statusText))
    ensures r.Success? ==> |r.value| == |resp.body|
    ensures r.Success? ==> forall i :: 0 <= i < |r.value| ==> IsSummaryOf(resp.body[i], r.value[i])
  {
    if IsBlank(baseId) then Failure(MissingBaseId)
    else
      match HandleResponse(resp)
      case Failure(e) => Failure(e)
      case Success(tables) => Success(Summaries(tables))
  }

  /** Index `i` holds the first table whose id is `tableId` (what `Array.prototype.find` picks). */
  ghost predicate IsFirstWithId(ts: seq<TableSchema>, tableId: string, i: int) {
    0 <= i < |ts| && ts[i].id == tableId && forall j :: 0 <= j < i ==> ts[j].id != tableId
  }

  function FindTable(ts: seq<TableSchema>, tableId: string): (r: Option<nat>)
    ensures r.Some? ==> IsFirstWithId(ts, tableId, r.value)
    ensures r.None? ==> forall j :: 0 <= j < |ts| ==> ts[j].id != tableId
  {
    if ts == [] then None
    else if ts[0].id == tableId then Some(0)
    else
      match FindTable(ts[1..], tableId)
      case None => None
      case Some(k) => Some(k + 1)
  }

  /** `getTableSchema`: the first table with the requested id, or "not found". */
  function GetTableSchema(tableId: string, resp: Response<seq<TableSchema>>): (r: Result<TableSchema, Error>)
    ensures !resp.Ok() ==> r == Failure(ApiError(AirtableApi, resp.status, resp.statusText))
    ensures resp.Ok() ==> (r.Success? <==> exists i :: 0 <= i < |resp.body| && resp.body[i].id == tableId)
    ensures resp.Ok() && r.Failure? ==> r.error == TableNotFound(tableId)
    ensures r.Success? ==> exists i :: IsFirstWithId(resp.body, tableId, i) && r.value == resp.body[i]
  {
    match HandleResponse(resp)
    case Failure(e) => Failure(e)
    case Success(tables) =>
      match FindTable(tables, tableId)
      case None => Failure(TableNotFound(tableId))
      case Some(i) => Success(tables[i])
  }

  /** `getTableDetails`: rejects empty ids, then finds the table as `getTableSchema` does and shapes it. */
  function GetTableDetails(baseId: string, tableId: string, resp: Response<seq<TableSchema>>): (r: Result<TableDetails, Error>)
    ensures baseId == [] || tableId == [] ==> r == Failure(MissingIds)
    ensures baseId != [] && tableId != [] && !resp.Ok() ==> r == Failure(ApiError(AirtableApi, resp.status, resp.statusText))
    ensures baseId != [] && tableId != [] && resp.Ok() ==>
      (r.Success? <==> exists i :: 0 <= i < |resp.body| && resp.body[i].id == tableId)
    ensures baseId != [] && tableId != [] && resp.Ok() && r.Failure? ==> r.error == TableNotFound(tableId)
    ensures r.Success? ==> exists i :: (IsFirstWithId(resp.body, tableId, i)
      && IsSummaryOf(resp.body[i], r.value.table) && r.value.fields == resp.body[i].fields)
  {
    if baseId == [] || tableId == [] then Failure(MissingIds)
    else
      match GetTableSchema(tableId, resp)
      case Failure(e) => Failure(e)
      case Success(t) => Success(TableDetails(Summarize(t), t.fields))
  }

  /** There is at most one first table with a given id. */
  lemma FirstWithIdUnique(ts: seq<TableSchema>, tableId: string, i: int, j: int)
    requires IsFirstWithId(ts, tableId, i) && IsFirstWithId(ts, tableId, j)
    ensures i == j
  {
  }

  /** The details `getTableDetails` returns are exactly the schema `getTableSchema` finds, shaped. */
  lemma DetailsAgreeWithSchema(baseId: string, tableId: string, resp: Response<seq<TableSchema>>)
    requires baseId != [] && tableId != []
    ensures GetTableDetails(baseId, tableId, resp).Success? <==> GetTableSchema(tableId, resp).Success?
    ensures GetTableDetails(baseId, tableId, resp).Success? ==>
      GetTableDetails(baseId, tableId, resp).value.table == Summarize(GetTableSchema(tableId, resp).value)
  {
  }

  /** The table part of `getTableDetails` is the entry `getTables` lists for the same response. */
  lemma DetailsTableIsListed(baseId: string, tableId: string, resp: Response<seq<TableSchema>>)
    requires GetTables(baseId, resp).Success? && GetTableDetails(baseId, tableId, resp).Success?
    ensures GetTableDetails(baseId, tableId, resp).value.table in GetTables(baseId, resp).value
  {
    var tables := GetTables(baseId, resp).value;
    var details := GetTableDetails(baseId, tableId, resp).value;
    var i :| IsFirstWithId(resp.body, tableId, i) && IsSummaryOf(resp.body[i], details.table);
    assert IsSummaryOf(resp.body[i], tables[i]);
    assert tables[i] == details.table;
  }

  // ---- One page of records ----

  datatype RecordsOptions =
    RecordsOptions(pageSize: Option<int>, offset: Option<string>, view: Option<string>, filterByFormula: Option<string>)

  datatype QueryParam = QueryParam(name: string, value: string)

  /** The decoded body of a records response: `records` may be missing, `offset` is the opaque cursor. */
  datatype RecordsBody<R> = RecordsBody(records: Option<seq<R>>, offset: Option<string>)

  /** What `getRecords` returns. */
  datatype Page<R> = Page(records: seq<R>, offset: Option<string>)

  /** JavaScript truthiness of an optional string: present and not empty. */
  predicate Truthy(s: Option<string>) {
    s.Some? && s.value != ""
  }

  /** JavaScript truthiness of an optional integer: present and not zero. */
  predicate PageSizeTruthy(n: Option<int>) {
    n.Some? && n.value != 0
  }

  /** Position of a parameter in the fixed order `getRecords` appends them; 4 for any other name. */
  function ParamRank(name: string): nat {
    if name == "pageSize" then 0
    else if name == "offset" then 1
    else if name == "view" then 2
    else if name == "filterByFormula" then 3
    else 4
  }

  /** The value of the first parameter called `name`. */
  function Lookup(ps: seq<QueryParam>, name: string): Option<string> {
    if ps == [] then None else if ps[0].name == name then Some(ps[0].value) else Lookup(ps[1..], name)
  }

  lemma {:induction false} LookupConcat(a: seq<QueryParam>, b: seq<QueryParam>, name: string)
    ensures Lookup(a + b, name) == if Lookup(a, name).Some? then Lookup(a, name) else Lookup(b, name)
  {
    if a != [] {
      assert (a + b)[0] == a[0];
      assert (a + b)[1..] == a[1..] + b;
      LookupConcat(a[1..], b, name);
    } else {
      assert a + b == b;
    }
  }

  /** Looking a name up in four blocks is looking it up in the first block that has it. */
  lemma LookupParams(a: seq<QueryParam>, b: seq<QueryParam>, c: seq<QueryParam>, d: seq<QueryParam>, key: string)
    ensures Lookup(a + b + c + d, key) ==
      if Lookup(a, key).Some? then Lookup(a, key)
      else if Lookup(b, key).Some? then Lookup(b, key)
      else if Lookup(c, key).Some? then Lookup(c, key)
      else Lookup(d, key)
  {
    LookupConcat(a + b + c, d, key);
    LookupConcat(a + b, c, key);
    LookupConcat(a, b, key);
  }

  /** Parameters sorted by the fixed order and without repeats. */
  ghost predicate InParamOrder(ps: seq<QueryParam>) {
    && (forall i :: 0 <= i < |ps| ==> ParamRank(ps[i].name) < 4)
    && (forall i, j :: 0 <= i < j < |ps| ==> ParamRank(ps[i].name) < ParamRank(ps[j].name))
  }

  /** Appending a parameter of a later rank keeps the order. */
  lemma ParamsInOrder(ps: seq<QueryParam>, next: seq<QueryParam>, k: nat)
    requires InParamOrder(ps) && |next| <= 1
    requires forall i :: 0 <= i < |ps| ==> ParamRank(ps[i].name) <= k
    requires forall i :: 0 <= i < |next| ==> ParamRank(next[i].name) == k + 1 < 4
    ensures InParamOrder(ps + next)
    ensures forall i :: 0 <= i < |ps + next| ==> ParamRank((ps + next)[i].name) <= k + 1
  {
  }

  /** The parameter `getRecords` appends for one option, when that option is truthy. */
  function Param(present: bool, name: string, value: string): (r: seq<QueryParam>)
    ensures Lookup(r, name) == if present then Some(value) else None
  {
    if present then [QueryParam(name, value)] else []
  }

  function PageSizeParam(o: RecordsOptions): (r: seq<QueryParam>)
    ensures |r| <= 1 && forall i :: 0 <= i < |r| ==> ParamRank(r[i].name) == 0
  {
    Param(PageSizeTruthy(o.pageSize), "pageSize", if o.pageSize.Some? then IntToString(o.pageSize.value) else "")
  }

  function OffsetParam(o: RecordsOptions): (r: seq<QueryParam>)
    ensures |r| <= 1 && forall i :: 0 <= i < |r| ==> ParamRank(r[i].name) == 1
  {
    Param(Truthy(o.offset), "offset", if o.offset.Some? then o.offset.value else "")
  }

  function ViewParam(o: RecordsOptions): (r: seq<QueryParam>)
    ensures |r| <= 1 && forall i :: 0 <= i < |r| ==> ParamRank(r[i].name) == 2
  {
    Param(Truthy(o.view), "view", if o.view.Some? then o.view.value else "")
  }

  function FormulaParam(o: RecordsOptions): (r: seq<QueryParam>)
    ensures |r| <= 1 && forall i :: 0 <= i < |r| ==> ParamRank(r[i].name) == 3
  {
    Param(Truthy(o.filterByFormula), "filterByFormula", if o.filterByFormula.Some? then o.filterByFormula.value else "")
  }

  /**
   * The query parameters `getRecords` appends: each only when truthy, in the
   * order pageSize, offset, view, filterByFormula.
   */
  function QueryParams(options: Option<RecordsOptions>): (r: seq<QueryParam>)
    ensures |r| <= 4
    ensures InParamOrder(r)
  {
    var o := options.GetOr(RecordsOptions(None, None, None, None));
    var r := PageSizeParam(o) + OffsetParam(o) + ViewParam(o) + FormulaParam(o);
    ParamsInOrder(PageSizeParam(o), OffsetParam(o), 0);
    ParamsInOrder(PageSizeParam(o) + OffsetParam(o), ViewParam(o), 1);
    ParamsInOrder(PageSizeParam(o) + OffsetParam(o) + ViewParam(o), FormulaParam(o), 2);
    r
  }

  /** Each option reaches the query exactly when it is truthy, with its value. */
  lemma QueryParamsLookup(options: Option<RecordsOptions>)
    ensures Lookup(QueryParams(options), "pageSize") ==
      if options.Some? && PageSizeTruthy(options.value.pageSize) then Some(IntToString(options.value.pageSize.value)) else None
    ensures Lookup(QueryParams(options), "offset") ==
      if options.Some? && Truthy(options.value.offset) then options.value.offset else None
    ensures Lookup(QueryParams(options), "view") ==
      if options.Some? && Truthy(options.value.view) then options.value.view else None
    ensures Lookup(QueryParams(options), "filterByFormula") ==
      if options.Some? && Truthy(options.value.filterByFormula) then options.value.filterByFormula else None
  {
    var o := options.GetOr(RecordsOptions(None, None, None, None));
    LookupBlocks(o, "pageSize", 0);
    LookupBlocks(o, "offset", 1);
    LookupBlocks(o, "view", 2);
    LookupBlocks(o, "filterByFormula", 3);
  }

  /** A parameter block whose names all have another rank does not hold `key`. */
  lemma LookupOtherRank(ps: seq<QueryParam>, k: nat, key: string)
    requires |ps| <= 1 && forall i :: 0 <= i < |ps| ==> ParamRank(ps[i].name) == k
    requires ParamRank(key) != k
    ensures Lookup(ps, key) == None
  {
    if ps != [] {
      assert ps[0].name != key;
      assert ps[1..] == [];
    }
  }

  /** The query's value for the key of rank `k` is the one of block `k`; the other blocks do not hold it. */
  lemma LookupBlocks(o: RecordsOptions, key: string, k: nat)
    requires k < 4 && ParamRank(key) == k
    ensures Lookup(QueryParams(Some(o)), key) ==
      [Lookup(PageSizeParam(o), key), Lookup(OffsetParam(o), key), Lookup(ViewParam(o), key), Lookup(FormulaParam(o), key)][k]
  {
    var a, b, c, d := PageSizeParam(o), OffsetParam(o), ViewParam(o), FormulaParam(o);
    LookupParams(a, b, c, d, key);
    if k != 0 { LookupOtherRank(a, 0, key); }
    if k != 1 { LookupOtherRank(b, 1, key); }
    if k != 2 { LookupOtherRank(c, 2, key); }
    if k != 3 { LookupOtherRank(d, 3, key); }
  }

  /** `URLSearchParams.toString()` without percent-encoding: `name=value` pairs joined by `&`. */
  function QueryString(ps: seq<QueryParam>): (s: string)
    ensures s == [] <==> ps == []
  {
    if ps == [] then ""
    else if |ps| == 1 then ps[0].name + "=" + ps[0].value
    else ps[0].name + "=" + ps[0].value + "&" + QueryString(ps[1..])
  }

  /** One parameter is written as `name=value`. */
  lemma QueryStringSingle(p: QueryParam)
    ensures QueryString([p]) == p.name + "=" + p.value
  {
  }

  /** The query of two non-empty parameter lists is their queries joined by `&`. */
  lemma {:induction false} QueryStringConcat(a: seq<QueryParam>, b: seq<QueryParam>)
    requires a != [] && b != []
    ensures QueryString(a + b) == QueryString(a) + "&" + QueryString(b)
  {
    var head := a[0].name + "=" + a[0].value;
    assert (a + b)[0] == a[0];
    if |a| == 1 {
      assert (a + b)[1..] == b;
      assert QueryString(a) == head;
    } else {
      assert (a + b)[1..] == a[1..] + b;
      QueryStringConcat(a[1..], b);
      assert QueryString(a) == head + "&" + QueryString(a[1..]);
    }
  }

  /** The table's records path: the API base, then the base id and the table id as two path segments. */
  function RecordsPath(baseId: string, tableId: string): (p: string)
    ensures |p| == |ApiBaseUrl| + 1 + |baseId| + 1 + |tableId|
    ensures p[..|ApiBaseUrl|] == ApiBaseUrl
    ensures forall i :: 0 <= i < |baseId| ==> p[|ApiBaseUrl| + 1 + i] == baseId[i]
    ensures forall i :: 0 <= i < |tableId| ==> p[|p| - |tableId| + i] == tableId[i]
    ensures p[|ApiBaseUrl|] == '/' && p[|ApiBaseUrl| + 1 + |baseId|] == '/'
  {
    ApiBaseUrl + "/" + baseId + "/" + tableId
  }

  /** The URL `getRecords` fetches: the table path, then `?` and the query only when a parameter is present. */
  function RecordsUrl(baseId: string, tableId: string, options: Option<RecordsOptions>): (url: string)
    ensures |url| >= |RecordsPath(baseId, tableId)| && url[..|RecordsPath(baseId, tableId)|] == RecordsPath(baseId, tableId)
    ensures url == RecordsPath(baseId, tableId) <==> QueryParams(options) == []
    ensures QueryParams(options) != [] ==>
      url[|RecordsPath(baseId, tableId)|] == '?' && url[|RecordsPath(baseId, tableId)| + 1..] == QueryString(QueryParams(options))
  {
    var q := QueryString(QueryParams(options));
    var p := RecordsPath(baseId, tableId);
    PathThenQuery(p, q);
    p + (if q != "" then "?" + q else "")
  }

  /** A path followed by `?` and a query only when the query is not empty. */
  lemma PathThenQuery(p: string, q: string)
    ensures var u := p + (if q != "" then "?" + q else "");
      && |u| >= |p| && u[..|p|] == p
      && (u == p <==> q == "")
      && (q != "" ==> u[|p|] == '?' && u[|p| + 1..] == q)
  {
    if q != "" {
      var u := p + "?" + q;
      assert u[..|p|] == p;
      assert u[|p| + 1..] == q;
    }
  }

  /** `getRecords`: rejects empty ids, then passes the page through; missing `records` reads as none. */
  function GetRecords<R>(baseId: string, tableId: string, resp: Response<RecordsBody<R>>): (r: Result<Page<R>, Error>)
    ensures baseId == [] || tableId == [] ==> r == Failure(MissingIds)
    ensures baseId != [] && tableId != [] ==> (r.Success? <==> resp.Ok())
    ensures baseId != [] && tableId != [] && !resp.Ok() ==> r == Failure(ApiError(AirtableApi, resp.status, resp.statusText))
    ensures r.Success? ==> r.value.records == (if resp.body.records.Some? then resp.body.records.value else [])
    ensures r.Success? ==> r.value.offset == resp.body.offset
  {
    if baseId == [] || tableId == [] then Failure(MissingIds)
    else
      match HandleResponse(resp)
      case Failure(e) => Failure(e)
      case Success(body) => Success(Page(body.records.GetOr([]), body.offset))
  }

  // ---- Every page of records ----

  /** A response after which `getAllRecords` makes no further request: an error, or no next offset. */
  predicate EndsPaging<R>(resp: Response<RecordsBody<R>>) {
    !resp.Ok() || !Truthy(resp.body.offset)
  }

  /** The abstract server eventually answers with a response that ends the paging. */
  predicate PagingEnds<R>(server: seq<Response<RecordsBody<R>>>) {
    exists k :: 0 <= k < |server| && EndsPaging(server[k])
  }

  /** Index of the first response that ends the paging. */
  function LastPage<R>(server: seq<Response<RecordsBody<R>>>): (k: nat)
    requires PagingEnds(server)
    ensures k < |server| && EndsPaging(server[k])
    ensures forall j :: 0 <= j < k ==> !EndsPaging(server[j])
  {
    if EndsPaging(server[0]) then 0
    else
      assert PagingEnds(server[1..]) by {
        var k :| 0 <= k < |server| && EndsPaging(server[k]);
        assert EndsPaging(server[1..][k - 1]);
      }
      LastPage(server[1..]) + 1
  }

  function PageRecords<R>(resp: Response<RecordsBody<R>>): seq<R> {
    resp.body.records.GetOr([])
  }

  /** The records of the first `n` responses, concatenated in the order the server sent them. */
  function RecordsOf<R>(server: seq<Response<RecordsBody<R>>>, n: nat): seq<R>
    requires n <= |server|
  {
    if n == 0 then [] else RecordsOf(server, n - 1) + PageRecords(server[n - 1])
  }

  /** The options of the request `getAllRecords` makes after receiving `offset`. */
  function PagingOptions(offset: Option<string>): (o: RecordsOptions)
    ensures o.pageSize == Some(100) && PageSizeTruthy(o.pageSize)
    ensures o.offset == offset
    ensures o.view == None && o.filterByFormula == None
  {
    RecordsOptions(Some(AllRecordsPageSize), offset, None, None)
  }

  /** The options of the first `n` requests `getAllRecords` sends: each carries the offset of the page before. */
  function Requests<R>(server: seq<Response<RecordsBody<R>>>, n: nat): (rs: seq<RecordsOptions>)
    requires n <= |server|
    ensures |rs| == n
    ensures forall j :: 0 <= j < n ==> rs[j] == PagingOptions(if j == 0 then None else server[j - 1].body.offset)
  {
    if n == 0 then [] else Requests(server, n - 1) + [PagingOptions(if n == 1 then None else server[n - 2].body.offset)]
  }

  /**
   * `getAllRecords`: requests pages of 100 records, following the offset of
   * each page until a page comes without one, and concatenates the records in
   * the order the pages arrived. `server[i]` is the answer to the i-th request;
   * `requests` lists the options of the requests actually sent.
   */
  method GetAllRecords<R>(baseId: string, tableId: string, server: seq<Response<RecordsBody<R>>>)
    returns (result: Result<seq<R>, Error>, requests: seq<RecordsOptions>)
    requires PagingEnds(server)
    ensures baseId == [] || tableId == [] ==> result == Failure(MissingIds) && requests == []
    ensures baseId != [] && tableId != [] ==> |requests| == LastPage(server) + 1
    ensures requests != [] ==> requests[0].offset == None
    ensures forall i :: 0 < i < |requests| ==> requests[i].offset == server[i - 1].body.offset && Truthy(requests[i].offset)
    ensures forall i :: 0 <= i < |requests| ==> requests[i] == PagingOptions(requests[i].offset)
    ensures baseId != [] && tableId != [] ==> (result.Success? <==> server[LastPage(server)].Ok())
    ensures result.Success? ==> result.value == RecordsOf(server, LastPage(server) + 1)
    ensures baseId != [] && tableId != [] && result.Failure? ==>
      result.error == ApiError(AirtableApi, server[LastPage(server)].status, server[LastPage(server)].statusText)
  {
    ghost var idsGiven := baseId != [] && tableId != [];
    ghost var last := LastPage(server);
    var all: seq<R> := [];
    var offset: Option<string> := None;
    var i := 0;
    requests := [];
    while true
      invariant 0 <= i <= last
      invariant all == RecordsOf(server, i)
      invariant idsGiven ==> requests == Requests(server, i)
      invariant !idsGiven ==> i == 0 && requests == []
      invariant offset == if i == 0 then None else server[i - 1].body.offset
      invariant 0 < i ==> Truthy(offset)
      decreases last - i
    {
      var options := PagingOptions(offset);
      if baseId != [] && tableId != [] {
        requests := requests + [options];
      }
      var page := GetRecords(baseId, tableId, server[i]);
      if page.Failure? {
        result := Failure(page.error);
        return;
      }
      all := all + page.value.records;
      offset := page.value.offset;
      i := i + 1;
      if !Truthy(offset) {
        break;
      }
    }
    result := Success(all);
  }

  /** The records of earlier pages come before those of later pages. */
  lemma {:induction false} RecordsOfPrefix<R>(server: seq<Response<RecordsBody<R>>>, m: nat, n: nat)
    requires m <= n <= |server|
    ensures |RecordsOf(server, m)| <= |RecordsOf(server, n)|
    ensures RecordsOf(server, m) == RecordsOf(server, n)[..|RecordsOf(server, m)|]
  {
    if m < n {
      RecordsOfPrefix(server, m, n - 1);
    }
  }

  /** Page `i` occupies one contiguous block of the result, right after the pages before it. */
  lemma {:induction false} RecordsOfBlock<R>(server: seq<Response<RecordsBody<R>>>, i: nat, n: nat)
    requires i < n <= |server|
    ensures |RecordsOf(server, i)| + |PageRecords(server[i])| <= |RecordsOf(server, n)|
    ensures RecordsOf(server, n)[|RecordsOf(server, i)|..|RecordsOf(server, i)| + |PageRecords(server[i])|]
      == PageRecords(server[i])
  {
    RecordsOfPrefix(server, i + 1, n);
    var a := RecordsOf(server, i);
    var p := PageRecords(server[i]);
    assert RecordsOf(server, i + 1) == a + p;
    assert RecordsOf(server, n)[..|a| + |p|] == a + p;
    assert (a + p)[|a|..|a| + |p|] == p;
  }

  /** Every request `getAllRecords` sends asks for 100 records and carries the offset only once there is one. */
  lemma PagingQuery(offset: Option<string>)
    ensures QueryParams(Some(PagingOptions(offset))) ==
      [QueryParam("pageSize", "100")] + (if Truthy(offset) then [QueryParam("offset", offset.value)] else [])
  {
    var o := PagingOptions(offset);
    assert IntToString(100) == "100" by {
      assert NatToString(1) == "1";
      assert NatToString(10) == "10";
    }
    assert PageSizeParam(o) == [QueryParam("pageSize", "100")];
    assert ViewParam(o) == [] && FormulaParam(o) == [];
  }

  /** The query text of `pageSize=100` alone or followed by one offset parameter. */
  lemma PagingParamsString(offset: Option<string>)
    ensures QueryString([QueryParam("pageSize", "100")] + (if Truthy(offset) then [QueryParam("offset", offset.value)] else [])) ==
      "pageSize=100" + (if Truthy(offset) then "&offset=" + offset.value else "")
  {
    var size := QueryParam("pageSize", "100");
    QueryStringSingle(size);
    if Truthy(offset) {
      var off := QueryParam("offset", offset.value);
      QueryStringSingle(off);
      QueryStringConcat([size], [off]);
    } else {
      assert [size] + [] == [size];
    }
  }

  /** The query text of every paging request: `pageSize=100`, then `&offset=` and the offset once there is one. */
  lemma PagingQueryString(offset: Option<string>)
    ensures QueryString(QueryParams(Some(PagingOptions(offset)))) ==
      "pageSize=100" + (if Truthy(offset) then "&offset=" + offset.value else "")
  {
    PagingQuery(offset);
    PagingParamsString(offset);
  }
}
