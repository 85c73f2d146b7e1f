/**
 * The Grist side of src/lib/grist.ts: the wire shapes of tables, columns and
 * records, the Airtable-to-Grist type and schema mapping, the document id
 * parser, the service's constructor guards and the shaping of its responses.
 */
module Grist {
  import opened Wrappers
  import opened Strings
  import opened Http
  import Airtable

  /** `GristFieldType`: the column types the migration produces. */
  datatype GristFieldType = Text | Numeric | Int | Date | DateTime | Bool | Choice {

    /** The string the enum member stands for on the wire: a capitalised word, unlike every Airtable type name. */
    function Name(): (n: string)
      ensures n != [] && 'A' <= n[0] <= 'Z'
    {
      match this
      case Text => "Text"
      case Numeric => "Numeric"
      case Int => "Int"
      case Date => "Date"
      case DateTime => "DateTime"
      case Bool => "Bool"
      case Choice => "Choice"
    }
  }

  /** The column's `fields` object (a single object, not a list): `displayLabel` is the wire `label`, `fieldType` the wire `type`. */
  datatype GristField = GristField(displayLabel: string, fieldType: string)

  datatype GristColumn = GristColumn(id: string, fields: GristField)

  /** A table to create; its id is the table's name. */
  datatype GristTable = GristTable(id: string, columns: seq<GristColumn>)

  /** The record wrapper of the records endpoint. */
  datatype GristRecord<R> = GristRecord(fields: R)

  /** An entry of the `tables` list the table-creation endpoint answers with. */
  datatype TableRef = TableRef(id: string)

  datatype Organization = Organization(id: int, name: string, domain: Option<string>)

  datatype Workspace = Workspace(id: int, name: string)

  /** The decoded body of the document-creation endpoint: a bare id string or an object. */
  datatype CreatedDocument = DocumentId(docId: string) | DocumentObject(idField: Option<string>)

  /** The path prefix every request goes through (the development proxy), whatever API URL was given. */
  const ProxyBaseUrl := "/grist/"

  /** The service keeps the proxy prefix and the trimmed token, both fixed at construction. */
  datatype GristService = GristService(baseUrl: string, token: string)

  // ---- Service construction and response shaping ----

  /** `new GristService(apiUrl, token)`: the token is checked first, then the URL. */
  function NewGristService(apiUrl: string, token: string): (r: Result<GristService, Error>)
    ensures IsBlank(token) ==> r == Failure(MissingToken(GristApi))
    ensures !IsBlank(token) && IsBlank(apiUrl) ==> r == Failure(MissingApiUrl)
    ensures r.Success? <==> !IsBlank(token) && !IsBlank(apiUrl)
    ensures r.Success? ==> r.value.baseUrl == ProxyBaseUrl
    ensures r.Success? ==> r.value.token == Trim(token) && r.value.token != [] && IsTrimmed(r.value.token)
  {
    if IsBlank(token) then Failure(MissingToken(GristApi))
    else if IsBlank(apiUrl) then Failure(MissingApiUrl)
    else Success(GristService(ProxyBaseUrl, Trim(token)))
  }

  /** Two services built from the same token are the same whatever API URLs they were given. */
  lemma ServiceIgnoresApiUrl(apiUrl1: string, apiUrl2: string, token: string)
    requires NewGristService(apiUrl1, token).Success? && NewGristService(apiUrl2, token).Success?
    ensures NewGristService(apiUrl1, token) == NewGristService(apiUrl2, token)
  {
  }

  /** `handleResponse`: a non-ok response becomes an error carrying its status; otherwise the body. */
  function HandleResponse<B>(resp: Response<B>): (r: Result<B, Error>)
    ensures r.Success? <==> resp.Ok()
    ensures r.Success? ==> r.value == resp.body
    ensures r.Failure? ==> r.error == ApiError(GristApi, resp.status, resp.statusText)
  {
    if resp.Ok() then Success(resp.body) else Failure(ApiError(GristApi, resp.status, resp.statusText))
  }

  /** `validateToken`: whether listing the organisations succeeds; it never fails itself. */
  function ValidateToken<B>(resp: Response<B>): (valid: bool)
    ensures valid <==> resp.Ok()
  {
    HandleResponse(resp).Success?
  }

  /** `validateGristCredentials`: false when the constructor throws, otherwise `validateToken`. */
  function ValidateGristCredentials<B>(apiUrl: string, token: string, resp: Response<B>): (valid: bool)
    ensures valid <==> !IsBlank(token) && !IsBlank(apiUrl) && resp.Ok()
  {
    match NewGristService(apiUrl, token)
    case Failure(_) => false
    case Success(_) => ValidateToken(resp)
  }

  /** `createDocument`: the `id` of an object answer when it is truthy, otherwise the answer itself. */
  function CreateDocument(resp: Response<CreatedDocument>): (r: Result<CreatedDocument, Error>)
    ensures r.Success? <==> resp.Ok()
    ensures r.Failure? ==> r.error == ApiError(GristApi, resp.status, resp.statusText)
    ensures r.Success? && resp.body.DocumentId? ==> r.value == resp.body
    ensures r.Success? && resp.body.DocumentObject? ==>
      r.value == if Airtable.Truthy(resp.body.idField) then DocumentId(resp.body.idField.value) else resp.body
  {
    match HandleResponse(resp)
    case Failure(e) => Failure(e)
    case Success(data) =>
      if data.DocumentObject? && Airtable.Truthy(data.idField) then Success(DocumentId(data.idField.value)) else Success(data)
  }

  function TableIds(refs: seq<TableRef>): (ids: seq<string>)
    ensures |ids| == |refs|
    ensures forall i :: 0 <= i < |refs| ==> ids[i] == refs[i].id
  {
    if refs == [] then [] else [refs[0].id] + TableIds(refs[1..])
  }

  /** `addTablesToDocument`: the ids of the created tables, one per response entry, in response order. */
  function AddTablesToDocument(resp: Response<seq<TableRef>>): (r: Result<seq<string>, Error>)
    ensures r.Success? <==> resp.Ok()
    ensures r.Failure? ==> r.error == ApiError(GristApi, resp.status, resp.statusText)
    ensures r.Success? ==> |r.value| == |resp.body|
    ensures r.Success? ==> forall i :: 0 <= i < |resp.body| ==> r.value[i] == resp.body[i].id
  {
    match HandleResponse(resp)
    case Failure(e) => Failure(e)
    case Success(refs) => Success(TableIds(refs))
  }

  /** `getOrgs`: the organisations of the answer, none when the body is null. */
  function GetOrgs(resp: Response<Option<seq<Organization>>>): (r: Result<seq<Organization>, Error>)
    ensures r.Success? <==> resp.Ok()
    ensures r.Failure? ==> r.error == ApiError(GristApi, resp.status, resp.statusText)
    ensures r.Success? ==> r.value == if resp.body.Some? then resp.body.value else []
  {
    match HandleResponse(resp)
    case Failure(e) => Failure(e)
    case Success(data) => Success(data.GetOr([]))
  }

  /** `getWorkspaces`: the workspaces of the answer, none when the body is null. */
  function GetWorkspaces(resp: Response<Option<seq<Workspace>>>): (r: Result<seq<Workspace>, Error>)
    ensures r.Success? <==> resp.Ok()
    ensures r.Failure? ==> r.error == ApiError(GristApi, resp.status, resp.statusText)
    ensures r.Success? ==> r.value == if resp.body.Some? then resp.body.value else []
  {
    match HandleResponse(resp)
    case Failure(e) => Failure(e)
    case Success(data) => Success(data.GetOr([]))
  }

  // ---- Records ----

  /** The record wrapping of `addRecordsToTable`: one `{fields: record}` per record, in order. */
  function WrapRecords<R>(records: seq<R>): (r: seq<GristRecord<R>>)
    ensures |r| == |records|
    ensures forall i :: 0 <= i < |records| ==> r[i] == GristRecord(records[i])
  {
    if records == [] then [] else [GristRecord(records[0])] + WrapRecords(records[1..])
  }

  function UnwrapRecords<R>(wrapped: seq<GristRecord<R>>): seq<R> {
    if wrapped == [] then [] else [wrapped[0].fields] + UnwrapRecords(wrapped[1..])
  }

  /** Wrapping loses nothing: unwrapping gives the records back. */
  lemma {:induction false} UnwrapWrap<R>(records: seq<R>)
    ensures UnwrapRecords(WrapRecords(records)) == records
  {
    if records != [] {
      assert WrapRecords(records)[1..] == WrapRecords(records[1..]);
      UnwrapWrap(records[1..]);
    }
  }

  /** `addRecordsToTable`: the payload it posts, and the outcome of the post. */
  function AddRecordsToTable<R>(records: seq<R>, resp: Response<()>): (r: (seq<GristRecord<R>>, Result<(), Error>))
    ensures |r.0| == |records| && forall i :: 0 <= i < |records| ==> r.0[i].fields == records[i]
    ensures r.1.Success? <==> resp.Ok()
    ensures r.1.Failure? ==> r.1.error == ApiError(GristApi, resp.status, resp.statusText)
  {
    (WrapRecords(records), HandleResponse(resp))
  }

  // ---- Schema mapping ----

  /** The lookup table of `airtableToGristFieldType`. */
  const TypeMapping: map<string, GristFieldType> := map[
    "singleLineText" := Text, "multilineText" := Text, "richText" := Text, "email" := Text,
    "url" := Text, "phoneNumber" := Text, "number" := Numeric, "currency" := Numeric,
    "percent" := Numeric, "date" := Date, "dateTime" := DateTime, "checkbox" := Bool,
    "singleSelect" := Choice, "multipleSelects" := Text, "formula" := Text, "attachment" := Text,
    "autoNumber" := Int, "barcode" := Text, "button" := Text, "collaborator" := Text,
    "count" := Int, "createdBy" := Text, "createdTime" := DateTime, "duration" := Numeric,
    "lastModifiedBy" := Text, "lastModifiedTime" := DateTime, "lookup" := Text, "rating" := Int,
    "rollup" := Text
  ]

  /** `airtableToGristFieldType`: total; every tag outside the table becomes Text. */
  function AirtableToGristFieldType(airtableType: string): (r: GristFieldType)
    ensures r == Numeric <==> airtableType in {"number", "currency", "percent", "duration"}
    ensures r == Int <==> airtableType in {"autoNumber", "count", "rating"}
    ensures r == Date <==> airtableType == "date"
    ensures r == DateTime <==> airtableType in {"dateTime", "createdTime", "lastModifiedTime"}
    ensures r == Bool <==> airtableType == "checkbox"
    ensures r == Choice <==> airtableType == "singleSelect"
    ensures airtableType !in TypeMapping ==> r == Text
  {
    if airtableType in TypeMapping then TypeMapping[airtableType] else Text
  }

  /** `c` is the column `airtableToGristTable` makes of field `f`. */
  ghost predicate IsColumnOf(f: Airtable.Field, c: GristColumn) {
    c == GristColumn(f.id, GristField(f.name, AirtableToGristFieldType(f.fieldType).Name()))
  }

  function Columns(fields: seq<Airtable.Field>): (cs: seq<GristColumn>)
    ensures |cs| == |fields|
    ensures forall i :: 0 <= i < |fields| ==> IsColumnOf(fields[i], cs[i])
  {
    if fields == [] then []
    else
      var f := fields[0];
      [GristColumn(f.id, GristField(f.name, AirtableToGristFieldType(f.fieldType).Name()))] + Columns(fields[1..])
  }

  /** `airtableToGristTable`: one column per field, in field order; the table id is the table's name. */
  function AirtableToGristTable(t: Airtable.TableSchema): (g: GristTable)
    ensures g.id == t.name
    ensures |g.columns| == |t.fields|
    ensures forall i :: 0 <= i < |t.fields| ==> IsColumnOf(t.fields[i], g.columns[i])
  {
    GristTable(t.name, Columns(t.fields))
  }

  /** Distinct Grist types have distinct wire names. */
  lemma NameInjective(a: GristFieldType, b: GristFieldType)
    requires a.Name() == b.Name()
    ensures a == b
  {
  }

  /**
   * Feeding a Grist type name back to the mapper always gives Text: no Grist
   * name is an Airtable tag, so the mapper is not idempotent on its own output.
   */
  lemma MapperOnGristNames(t: GristFieldType)
    ensures AirtableToGristFieldType(t.Name()) == Text
  {
  }

  // ---- Document id ----

  /** The marker the document URL pattern starts with. */
  const DocMarker := "/doc/"

  /** A character the id capture `[^\/\?]` accepts. */
  predicate IsIdChar(c: char) {
    c != '/' && c != '?'
  }

  /** The pattern `/doc/` followed by at least one id character can match from position `i`. */
  predicate MatchAt(s: string, i: int) {
    0 <= i && i + 6 <= |s| && s[i..i + 5] == DocMarker && IsIdChar(s[i + 5])
  }

  /** `i` is where the regular expression's (leftmost) match starts. */
  ghost predicate LeftmostMatch(s: string, i: int) {
    MatchAt(s, i) && forall j :: 0 <= j < i ==> !MatchAt(s, j)
  }

  /** `id` is the greedy capture of a match starting at `i`: the longest run of id characters after the marker. */
  ghost predicate CapturedAt(s: string, i: int, id: string) {
    && 0 <= i
    && i + 5 + |id| <= |s|
    && id != []
    && s[i + 5..i + 5 + |id|] == id
    && (forall k :: 0 <= k < |id| ==> IsIdChar(id[k]))
    && (i + 5 + |id| == |s| || !IsIdChar(s[i + 5 + |id|]))
  }

  /** Scans left to right from `from` for the first position the pattern matches at. */
  function FindMatch(s: string, from: nat): (r: Option<nat>)
    requires from <= |s|
    ensures r.Some? ==> from <= r.value && MatchAt(s, r.value)
    ensures r.Some? ==> forall j :: from <= j < r.value ==> !MatchAt(s, j)
    ensures r.None? ==> forall j :: from <= j ==> !MatchAt(s, j)
    decreases |s| - from
  {
    if from + 6 > |s| then None
    else if MatchAt(s, from) then Some(from)
    else FindMatch(s, from + 1)
  }

  /** Scans the id characters from `from`: the end of the run. */
  function IdEnd(s: string, from: nat): (e: nat)
    requires from <= |s|
    ensures from <= e <= |s|
    ensures forall k :: from <= k < e ==> IsIdChar(s[k])
    ensures e == |s| || !IsIdChar(s[e])
    decreases |s| - from
  {
    if from == |s| || !IsIdChar(s[from]) then from else IdEnd(s, from + 1)
  }

  /**
   * `GristService.extractDocumentId`: the capture of the leftmost match of
   * `/\/doc\/([^\/\?]+)/`, or an error when the URL has no match.
   */
  function ExtractDocumentId(url: string): (r: Result<string, Error>)
    ensures r.Failure? <==> forall i :: 0 <= i < |url| ==> !MatchAt(url, i)
    ensures r.Failure? ==> r.error == InvalidDocumentUrl
    ensures r.Success? ==> r.value != [] && forall k :: 0 <= k < |r.value| ==> IsIdChar(r.value[k])
    ensures r.Success? ==> exists i :: LeftmostMatch(url, i) && CapturedAt(url, i, r.value)
  {
    match FindMatch(url, 0)
    case None => Failure(InvalidDocumentUrl)
    case Some(i) =>
      var e := IdEnd(url, i + 5);
      var id := url[i + 5..e];
      assert LeftmostMatch(url, i) && CapturedAt(url, i, id);
      Success(id)
  }

  /** The leftmost match is unique, and so is its capture: the contract above pins the id down. */
  lemma CaptureUnique(s: string, i: int, j: int, a: string, b: string)
    requires LeftmostMatch(s, i) && LeftmostMatch(s, j)
    requires CapturedAt(s, i, a) && CapturedAt(s, j, b)
    ensures a == b
  {
    assert i == j;
    assert forall k :: 0 <= k < |a| ==> s[i + 5 + k] == a[k];
    assert forall k :: 0 <= k < |b| ==> s[i + 5 + k] == b[k];
  }

  /** The marker itself (without the id character after it) occurs at `j`. */
  predicate MarkerAt(w: string, j: int) {
    0 <= j && j + 5 <= |w| && w[j..j + 5] == DocMarker
  }

  /** No marker starts before position `n`. */
  predicate NoMarkerBefore(w: string, n: int) {
    forall j :: 0 <= j < n ==> !MarkerAt(w, j)
  }

  /** An id after the first `/doc/` of a URL, ended by `/`, `?` or the end, is what gets extracted. */
  lemma ExtractAfterMarker(prefix: string, id: string, rest: string)
    requires NoMarkerBefore(prefix + DocMarker, |prefix|)
    requires id != [] && forall k :: 0 <= k < |id| ==> IsIdChar(id[k])
    requires rest == [] || !IsIdChar(rest[0])
    ensures ExtractDocumentId(prefix + DocMarker + id + rest) == Success(id)
  {
    var url := prefix + DocMarker + id + rest;
    var n := |prefix|;
    forall j | 0 <= j < n
      ensures !MatchAt(url, j)
    {
      assert !MarkerAt(prefix + DocMarker, j);
      assert url[j..j + 5] == (prefix + DocMarker)[j..j + 5];
    }
    assert url[n..n + 5] == DocMarker;
    assert url[n + 5] == id[0];
    assert LeftmostMatch(url, n);
    assert url[n + 5..n + 5 + |id|] == id;
    assert CapturedAt(url, n, id);
    var r := ExtractDocumentId(url);
    var i :| LeftmostMatch(url, i) && CapturedAt(url, i, r.value);
    CaptureUnique(url, i, n, r.value, id);
  }

  /** A URL whose first `/doc/` ends it has nothing to capture and is rejected. */
  lemma ExtractRejectsEmptyId(prefix: string)
    requires NoMarkerBefore(prefix + DocMarker, |prefix|)
    ensures ExtractDocumentId(prefix + DocMarker).Failure?
  {
    var url := prefix + DocMarker;
    forall j | 0 <= j < |url|
      ensures !MatchAt(url, j)
    {
      if j < |prefix| {
        assert !MarkerAt(url, j);
      }
    }
  }

  /** A prefix without any `/` cannot hold a marker. */
  lemma NoMarkerWithoutSlash(prefix: string)
    requires forall k :: 0 <= k < |prefix| ==> prefix[k] != '/'
    ensures NoMarkerBefore(prefix + DocMarker, |prefix|)
  {
    var w := prefix + DocMarker;
    forall j | 0 <= j < |prefix|
      ensures !MarkerAt(w, j)
    {
      assert w[j..j + 5][0] == prefix[j];
    }
  }

  /** `docs.getgrist.com/doc/ABC?x=1` gives `ABC`. */
  lemma ExtractExample()
    ensures ExtractDocumentId("docs.getgrist.com/doc/ABC?x=1") == Success("ABC")
  {
    var host := "docs.getgrist.com";
    assert forall k :: 0 <= k < |host| ==> host[k] != '/';
    NoMarkerWithoutSlash(host);
    assert "docs.getgrist.com/doc/ABC?x=1" == host + DocMarker + "ABC" + "?x=1";
    ExtractAfterMarker(host, "ABC", "?x=1");
  }

  /** `docs.getgrist.com/doc/` has nothing after the marker and is rejected. */
  lemma RejectExample()
    ensures ExtractDocumentId("docs.getgrist.com/doc/").Failure?
  {
    var host := "docs.getgrist.com";
    assert forall k :: 0 <= k < |host| ==> host[k] != '/';
    NoMarkerWithoutSlash(host);
    assert "docs.getgrist.com/doc/" == host + DocMarker;
    ExtractRejectsEmptyId(host);
  }
}
