/**
 * The earlier Python prototype of the migration, grist_main.py: its Grist
 * client (status check, table ids, record wrapping), its schema mapping
 * (every column typed `Any`) and the script that creates one Grist table per
 * Airtable table in a single call.
 */
module GristPrototype {
  import opened Wrappers
  import opened Http
  import Airtable
  import opened Grist

  /** The status check of `raise_for_status`: an error for every 4xx and 5xx status. */
  predicate RaisesForStatus<B>(resp: Response<B>) {
    400 <= resp.status < 600
  }

  /** `response.raise_for_status()` followed by reading the decoded body. */
  function CheckedBody<B>(resp: Response<B>): (r: Result<B, Error>)
    ensures r.Failure? <==> RaisesForStatus(resp)
    ensures r.Failure? ==> r.error == HttpError(resp.status)
    ensures r.Success? ==> r.value == resp.body
  {
    if RaisesForStatus(resp) then Failure(HttpError(resp.status)) else Success(resp.body)
  }

  /**
   * The prototype accepts every response the service accepts, and also the
   * 1xx and 3xx responses that the service's `ok` test rejects.
   */
  lemma StatusChecksCompared<B>(resp: Response<B>)
    ensures resp.Ok() ==> CheckedBody(resp).Success?
    ensures (300 <= resp.status < 400 || 100 <= resp.status < 200) ==>
      CheckedBody(resp).Success? && Grist.HandleResponse(resp).Failure?
  {
  }

  /** `at_to_grist_field_type`: the prototype types every column `Any`. */
  function AtToGristFieldType(airtableType: string): (t: string)
    ensures t == "Any"
    ensures forall g: GristFieldType :: t != g.Name()
  {
    "Any"
  }

  /** The prototype's type does not depend on the Airtable type. */
  lemma FieldTypeIsConstant(a: string, b: string)
    ensures AtToGristFieldType(a) == AtToGristFieldType(b) == "Any"
  {
  }

  /** `c` is the column the prototype makes of field `f`. */
  ghost predicate IsPrototypeColumn(f: Airtable.Field, c: GristColumn) {
    c == GristColumn(f.id, GristField(f.name, AtToGristFieldType(f.fieldType)))
  }

  /** `g` is the table the prototype makes of `t`: named after it, one column per field, in order. */
  ghost predicate IsPrototypeTable(t: Airtable.TableSchema, g: GristTable) {
    && g.id == t.name
    && |g.columns| == |t.fields|
    && forall i :: 0 <= i < |t.fields| ==> IsPrototypeColumn(t.fields[i], g.columns[i])
  }

  /** `at_to_grist_table`: the column list is built field by field; `docId` is not used. */
  method AtToGristTable(docId: string, atTable: Airtable.TableSchema) returns (table: GristTable)
    ensures IsPrototypeTable(atTable, table)
  {
    var columns: seq<GristColumn> := [];
    for i := 0 to |atTable.fields|
      invariant |columns| == i
      invariant forall j :: 0 <= j < i ==> IsPrototypeColumn(atTable.fields[j], columns[j])
    {
      var field := atTable.fields[i];
      var fieldType := AtToGristFieldType(field.fieldType);
      var gristField := GristField(field.name, fieldType);
      columns := columns + [GristColumn(field.id, gristField)];
    }
    table := GristTable(atTable.name, columns);
  }

  /** The prototype's table is determined by the Airtable table alone, so `doc_id` cannot change it. */
  lemma {:induction false} PrototypeTableUnique(t: Airtable.TableSchema, g1: GristTable, g2: GristTable)
    requires IsPrototypeTable(t, g1) && IsPrototypeTable(t, g2)
    ensures g1 == g2
  {
    assert forall i :: 0 <= i < |g1.columns| ==> g1.columns[i] == g2.columns[i] by {
      forall i | 0 <= i < |g1.columns|
        ensures g1.columns[i] == g2.columns[i]
      {
        assert IsPrototypeColumn(t.fields[i], g1.columns[i]);
        assert IsPrototypeColumn(t.fields[i], g2.columns[i]);
      }
    }
  }

  /** The prototype and the service build the same table except that every prototype column is `Any`. */
  lemma PrototypeMatchesService(t: Airtable.TableSchema, g: GristTable)
    requires IsPrototypeTable(t, g)
    ensures g.id == AirtableToGristTable(t).id
    ensures |g.columns| == |AirtableToGristTable(t).columns|
    ensures forall i :: 0 <= i < |g.columns| ==>
      && g.columns[i].id == AirtableToGristTable(t).columns[i].id
      && g.columns[i].fields.displayLabel == AirtableToGristTable(t).columns[i].fields.displayLabel
      && g.columns[i].fields.fieldType == "Any"
  {
    var s := AirtableToGristTable(t);
    forall i | 0 <= i < |g.columns|
      ensures g.columns[i].id == s.columns[i].id && g.columns[i].fields.displayLabel == s.columns[i].fields.displayLabel
    {
      assert IsPrototypeColumn(t.fields[i], g.columns[i]);
      assert IsColumnOf(t.fields[i], s.columns[i]);
    }
  }

  /** `GristApiClient.add_tables_to_document`: the created tables' ids, in response order. */
  function AddTablesToDocument(resp: Response<seq<TableRef>>): (r: Result<seq<string>, Error>)
    ensures r.Failure? <==> RaisesForStatus(resp)
    ensures r.Failure? ==> r.error == HttpError(resp.status)
    ensures r.Success? ==> |r.value| == |resp.body|
    ensures r.Success? ==> forall i :: 0 <= i < |resp.body| ==> r.value[i] == resp.body[i].id
  {
    match CheckedBody(resp)
    case Failure(e) => Failure(e)
    case Success(refs) => Success(TableIds(refs))
  }

  /**
   * `GristApiClient.add_records_to_table`: the posted payload wraps every record
   * as `{"fields": record}`, in order; the outcome is the status check.
   */
  method AddRecordsToTable<R>(records: seq<R>, resp: Response<()>)
    returns (payload: seq<GristRecord<R>>, outcome: Result<(), Error>)
    ensures payload == WrapRecords(records)
    ensures outcome == CheckedBody(resp)
  {
    payload := [];
    for i := 0 to |records|
      invariant |payload| == i
      invariant forall j :: 0 <= j < i ==> payload[j] == GristRecord(records[j])
    {
      payload := payload + [GristRecord(records[i])];
    }
    outcome := CheckedBody(resp);
  }

  /** The loop of the script: one Grist table per Airtable table, in schema order, none skipped. */
  method BuildGristTables(docId: string, atTables: seq<Airtable.TableSchema>) returns (gristTables: seq<GristTable>)
    ensures |gristTables| == |atTables|
    ensures forall i :: 0 <= i < |atTables| ==> IsPrototypeTable(atTables[i], gristTables[i])
  {
    gristTables := [];
    for i := 0 to |atTables|
      invariant |gristTables| == i
      invariant forall j :: 0 <= j < i ==> IsPrototypeTable(atTables[j], gristTables[j])
    {
      var gristTable := AtToGristTable(docId, atTables[i]);
      gristTables := gristTables + [gristTable];
    }
  }

  /**
   * The script: fetch the schema, create the document, build the tables and
   * submit them all in one `add_tables_to_document` call. `submitted` is that
   * call's table list, absent when an earlier step raised.
   */
  method ImportSchema(
    schemaResp: Response<seq<Airtable.TableSchema>>,
    docResp: Response<string>,
    tablesResp: Response<seq<TableRef>>
  ) returns (submitted: Option<seq<GristTable>>, result: Result<seq<string>, Error>)
    ensures RaisesForStatus(schemaResp) ==> submitted == None && result == Failure(HttpError(schemaResp.status))
    ensures !RaisesForStatus(schemaResp) && RaisesForStatus(docResp) ==>
      submitted == None && result == Failure(HttpError(docResp.status))
    ensures !RaisesForStatus(schemaResp) && !RaisesForStatus(docResp) ==>
      && submitted.Some?
      && |submitted.value| == |schemaResp.body|
      && (forall i :: 0 <= i < |schemaResp.body| ==> IsPrototypeTable(schemaResp.body[i], submitted.value[i]))
      && result == AddTablesToDocument(tablesResp)
  {
    submitted := None;
    var schema := CheckedBody(schemaResp);
    if schema.Failure? {
      result := Failure(schema.error);
      return;
    }
    var doc := CheckedBody(docResp);
    if doc.Failure? {
      result := Failure(doc.error);
      return;
    }
    var gristTables := BuildGristTables(doc.value, schema.value);
    submitted := Some(gristTables);
    result := AddTablesToDocument(tablesResp);
  }
}
