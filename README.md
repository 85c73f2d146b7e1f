# AirGrist core in Dafny

AirGrist is a wizard that moves an Airtable base into a Grist document. This
project models its core in Dafny:

- the **Airtable service** (`src/lib/airtable.ts`): the token guard, response
  handling, listing bases and tables, finding one table's schema, building
  the query of a records request, and the `getAllRecords` pagination loop;
- the **Grist service** (`src/lib/grist.ts`): the constructor guards, the
  shaping of the responses of the document, table, record, organisation and
  workspace endpoints, the Airtable-to-Grist type and schema mapping, record
  wrapping, and the document-id extraction from a Grist URL;
- the **Python prototype** (`grist_main.py`): its Grist client (status check,
  table ids, record wrapping), its schema mapping that types every column
  `Any`, and its script that creates one Grist table per Airtable table;
- the **wizard page** (`src/pages/Index.tsx`): its state, held in place by a
  class whose methods are the page's event handlers.

Network calls are not performed. Each operation that fetches receives the
decoded response (`Http.Response`: status, status text, decoded body) as a
parameter and returns a `Result` in place of a throw. `getAllRecords`
receives the sequence of answers a server would give to its successive
requests (`server[i]` answers the i-th request) and also returns the options
of every request it sent. JavaScript `trim` is modelled over the ECMAScript
whitespace and line-terminator characters (`Strings.Trim`).

Modules: `Wrappers` (Option, Result), `Strings` (trim, integer-to-decimal),
`Http` (responses and errors), `Airtable`, `Grist`, `GristPrototype`,
`Wizard`.

Behaviour of the code worth noting:

- `airtableToGristFieldType` is not idempotent. Mapping the Grist type names
  (`Text`, `Numeric`, ...) again gives `Text` for every one of them, because
  they are not Airtable type names (`Grist.MapperOnGristNames`).
- `getTables` rejects a blank base id (after trimming). `getTableDetails` and
  `getRecords` reject only empty ids. `getTableSchema` has no id guard.
- The Grist service ignores its API URL beyond checking that it is not
  blank. Every request goes through the fixed `/grist/` prefix
  (`Grist.ServiceIgnoresApiUrl`).
- The wizard handlers do not call the services. Validation and import are
  simulated waits, so a non-blank token always leads to step 2.
- The Python status check (`raise_for_status`) rejects only 4xx and 5xx
  responses, while the TypeScript `ok` test accepts only 2xx
  (`GristPrototype.StatusChecksCompared`).
- No migration orchestrator, batching of records or not-found handling of
  bases exists in the code, so none is modelled.

## Model

| member | source | states |
|---|---|---|
| Strings.TrimStart | src/lib/airtable.ts:44 | the result is a suffix of the input, starts with a non-whitespace character, and every dropped character is whitespace |
| Strings.TrimEnd | src/lib/airtable.ts:44 | the result is a prefix of the input, ends with a non-whitespace character, and every dropped character is whitespace |
| Strings.Trim | src/lib/airtable.ts:47 | the result is no longer than the input, has no whitespace at either end, and is empty exactly when the input is all whitespace |
| Strings.TrimIsMiddle | src/lib/airtable.ts:47 | the trimmed string is a contiguous span of the input with only whitespace before and after it |
| Strings.MiddleUnique | src/lib/airtable.ts:47 | two spans of one string, each with only whitespace around it and none at its own ends, are the same string |
| Strings.TrimmedMiddleIsTrim | src/lib/grist.ts:72 | any span with only whitespace around it and none at its own ends is the trimmed string, so `trim` is determined by that property |
| Strings.TrimOfTrimmed | src/lib/grist.ts:72 | trimming a string that has no whitespace at either end leaves it unchanged |
| Strings.TrimIdempotent | src/lib/grist.ts:72 | trimming twice is trimming once |
| Strings.IsBlank | src/lib/grist.ts:65 | the empty string is blank (the `!token` half of the test), and a string starting with a non-whitespace character is not |
| Strings.BlankIffTrimEmpty | src/lib/grist.ts:65 | a string is blank (every character whitespace) exactly when trimming it leaves nothing, the test `!s.trim()` |
| Strings.NatToString | src/lib/airtable.ts:219 | the decimal text of a natural number is all digits and starts with `0` only for zero |
| Strings.IntToString | src/lib/airtable.ts:219 | the text of an integer is non-empty, starts with `-` exactly when the integer is negative, and the rest is all digits, starting with `0` only for zero, whose decimal value is the integer's absolute value; zero is written `0` |
| Strings.DecimalRoundTrip | src/lib/airtable.ts:219 | reading back the decimal text of a natural number gives the number |
| Airtable.NewAirtableService | src/lib/airtable.ts:43-48 | construction fails with a missing-token error exactly when the token is blank; otherwise the service keeps the trimmed, non-empty token |
| Airtable.HandleResponse | src/lib/airtable.ts:57-63 | succeeds exactly on a 2xx status and yields the body; otherwise an Airtable API error carrying status and status text |
| Airtable.GetBases | src/lib/airtable.ts:68-86 | succeeds exactly on an ok response, with the bases of the body one for one and in order |
| Airtable.ValidateToken | src/lib/airtable.ts:190-197 | true exactly when the bases request is ok |
| Airtable.ValidateAirtableToken | src/lib/airtable.ts:276-283 | true exactly when the token is not blank and the bases request is ok |
| Airtable.Summarize | src/lib/airtable.ts:104-110 | the summary keeps id, name and primary field, turns a missing description into the empty string, and counts 0 records |
| Airtable.Summaries | src/lib/airtable.ts:104-110 | one summary per table, in order |
| Airtable.GetTables | src/lib/airtable.ts:91-115 | a blank base id is rejected; otherwise success exactly on an ok response, with one summary per table in order |
| Airtable.FindTable | src/lib/airtable.ts:174 | finds the first table with the requested id, or reports that no table has it |
| Airtable.GetTableSchema | src/lib/airtable.ts:166-185 | on an ok response, succeeds exactly when some table has the id, and returns the first such table; otherwise a not-found error; a failed response gives an API error |
| Airtable.GetTableDetails | src/lib/airtable.ts:120-161 | empty ids are rejected; otherwise succeeds exactly when some table has the id, returning the first such table's summary and its fields unchanged |
| Airtable.FirstWithIdUnique | src/lib/airtable.ts:135 | at most one index holds the first table with a given id |
| Airtable.DetailsAgreeWithSchema | src/lib/airtable.ts:135-139 | for non-empty ids, `getTableDetails` succeeds exactly when `getTableSchema` does, and its table is the summary of that schema |
| Airtable.DetailsTableIsListed | src/lib/airtable.ts:141-148 | the table `getTableDetails` returns is among the tables `getTables` lists for the same response |
| Airtable.RecordsPath | src/lib/airtable.ts:231 | the path starts with the API base URL `https://api.airtable.com/v0`, then `/`, the base id, `/`, the table id, each id copied character for character |
| Airtable.LookupConcat | src/lib/airtable.ts:216-229 | looking a name up in appended parameter lists finds it in the first list when there, else in the second |
| Airtable.QueryParams | src/lib/airtable.ts:216-229 | at most four parameters, in the order pageSize, offset, view, filterByFormula |
| Airtable.QueryParamsLookup | src/lib/airtable.ts:218-229 | each option reaches the query exactly when it is truthy, with its value (the page size as decimal text) |
| Airtable.QueryString | src/lib/airtable.ts:231 | the query text is empty exactly when there are no parameters |
| Airtable.QueryStringSingle | src/lib/airtable.ts:231 | one parameter is written `name=value` |
| Airtable.QueryStringConcat | src/lib/airtable.ts:231 | the query of two non-empty parameter lists is their two queries joined by `&`, so the pairs appear in order |
| Airtable.RecordsUrl | src/lib/airtable.ts:231 | the URL starts with the table path, equals it exactly when there is no parameter, and otherwise continues with `?` and the query text |
| Airtable.GetRecords | src/lib/airtable.ts:202-248 | empty ids are rejected; otherwise succeeds exactly on an ok response, with the page's records (none when missing) and its offset |
| Airtable.PagingOptions | src/lib/airtable.ts:258-261 | a paging request asks for 100 records (a truthy page size), carries the given offset, and has no view and no formula |
| Airtable.Requests | src/lib/airtable.ts:257-265 | the first `n` paging requests: the first without offset, each later one with the offset of the page before it |
| Airtable.LastPage | src/lib/airtable.ts:257-265 | the first answer that is an error or has no next offset |
| Airtable.GetAllRecords | src/lib/airtable.ts:253-268 | sends one request per answer up to the first that ends the paging; the first request has no offset and each later one carries the previous page's offset; every request asks for 100 records; the result is the records of those pages concatenated in order, or the API error of the last answer |
| Airtable.RecordsOfPrefix | src/lib/airtable.ts:263 | the records of earlier pages are a prefix of the records of later pages |
| Airtable.RecordsOfBlock | src/lib/airtable.ts:263 | the records of page `i` form one contiguous block of the result, right after those of the pages before it |
| Airtable.PagingQuery | src/lib/airtable.ts:258-261 | every paging request's query is `pageSize=100`, followed by the offset exactly when there is one |
| Airtable.PagingQueryString | src/lib/airtable.ts:231 | the query text of every paging request is `pageSize=100`, followed by `&offset=` and the offset exactly when the offset is truthy |
| Grist.NewGristService | src/lib/grist.ts:64-73 | a blank token is rejected first, then a blank URL; otherwise the service uses the `/grist/` prefix and keeps the trimmed, non-empty token |
| Grist.ServiceIgnoresApiUrl | src/lib/grist.ts:71 | two services built from the same token are equal whatever API URLs were given |
| Grist.HandleResponse | src/lib/grist.ts:83-94 | succeeds exactly on a 2xx status and yields the body; otherwise a Grist API error carrying status and status text |
| Grist.ValidateToken | src/lib/grist.ts:186-200 | true exactly when the organisations request is ok |
| Grist.ValidateGristCredentials | src/lib/grist.ts:331-341 | true exactly when token and URL are not blank and the request is ok |
| Grist.CreateDocument | src/lib/grist.ts:99-118 | succeeds exactly on an ok response; a bare id is returned as is, an object is replaced by its `id` when that is truthy and returned as is otherwise |
| Grist.TableIds | src/lib/grist.ts:136 | one id per created table, in response order |
| Grist.AddTablesToDocument | src/lib/grist.ts:123-141 | succeeds exactly on an ok response, with the ids of the created tables in response order |
| Grist.GetOrgs | src/lib/grist.ts:224-239 | succeeds exactly on an ok response, with the organisations of the body, or none for a null body |
| Grist.GetWorkspaces | src/lib/grist.ts:244-258 | succeeds exactly on an ok response, with the workspaces of the body, or none for a null body |
| Grist.WrapRecords | src/lib/grist.ts:152-154 | one wrapper per record, in order, each holding that record as its `fields` |
| Grist.UnwrapWrap | src/lib/grist.ts:152-154 | unwrapping the wrapped records gives back the records |
| Grist.AddRecordsToTable | src/lib/grist.ts:146-168 | the payload wraps every record in order; the outcome succeeds exactly on an ok response |
| Grist.AirtableToGristFieldType | src/lib/grist.ts:264-298 | for each Grist type, exactly which Airtable types map to it; every type outside the table maps to Text |
| Grist.Columns | src/lib/grist.ts:304-310 | one column per field, in order, with the field's id, its name as label and its mapped type |
| Grist.AirtableToGristTable | src/lib/grist.ts:303-316 | the table is named after the Airtable table and has one column per field, in order |
| Grist.GristFieldType.Name | src/lib/grist.ts:7-16 | the wire name of a Grist type is a non-empty capitalised word |
| Grist.NameInjective | src/lib/grist.ts:7-16 | distinct Grist types have distinct wire names |
| Grist.MapperOnGristNames | src/lib/grist.ts:264-298 | mapping a Grist type name again always gives Text, so the mapping is not idempotent |
| Grist.FindMatch | src/lib/grist.ts:174 | finds the leftmost position where `/doc/` is followed by an id character, or reports there is none |
| Grist.IdEnd | src/lib/grist.ts:174 | the id runs over id characters up to the end or to the first `/` or `?` |
| Grist.ExtractDocumentId | src/lib/grist.ts:173-181 | fails exactly when the URL has no `/doc/` followed by an id character; otherwise returns the non-empty longest run of characters other than `/` and `?` after the leftmost such `/doc/` |
| Grist.CaptureUnique | src/lib/grist.ts:174 | at a given position the captured id is unique |
| Grist.ExtractAfterMarker | src/lib/grist.ts:173-181 | for a prefix without `/doc/`, an id and a rest starting with `/`, `?` or nothing, the extracted id is that id |
| Grist.ExtractRejectsEmptyId | src/lib/grist.ts:175-179 | a URL ending in `/doc/` with no earlier `/doc/` is rejected |
| Grist.NoMarkerWithoutSlash | src/lib/grist.ts:174 | a string without `/` contains no `/doc/` |
| Grist.ExtractExample | src/lib/grist.ts:173-181 | `docs.getgrist.com/doc/ABC?x=1` gives `ABC` |
| Grist.RejectExample | src/lib/grist.ts:175-179 | `docs.getgrist.com/doc/` is rejected |
| GristPrototype.CheckedBody | grist_main.py:109-111 | fails with an HTTP error exactly on a 4xx or 5xx status, otherwise yields the body |
| GristPrototype.StatusChecksCompared | grist_main.py:120 | the prototype accepts every response the service accepts, and also 1xx and 3xx responses that the service rejects |
| GristPrototype.AtToGristFieldType | grist_main.py:141-142 | the prototype's column type is `Any`, which is the name of none of the service's Grist types |
| GristPrototype.FieldTypeIsConstant | grist_main.py:141-142 | the prototype's column type is `Any` whatever the Airtable type |
| GristPrototype.AtToGristTable | grist_main.py:144-150 | the table is named after the Airtable table, with one column per field, in order, each typed `Any` |
| GristPrototype.PrototypeTableUnique | grist_main.py:144-150 | the prototype table is determined by the Airtable table alone; the document id plays no part |
| GristPrototype.PrototypeMatchesService | grist_main.py:144-150 | the prototype table has the service table's name, column ids and labels; only the types differ, all `Any` |
| GristPrototype.AddTablesToDocument | grist_main.py:114-124 | fails exactly on a 4xx or 5xx status; otherwise the created tables' ids in response order |
| GristPrototype.AddRecordsToTable | grist_main.py:127-139 | the payload built by the loop wraps every record in order; the outcome is the status check |
| GristPrototype.BuildGristTables | grist_main.py:176-181 | one prototype table per Airtable table, in schema order, none skipped |
| GristPrototype.ImportSchema | grist_main.py:173-182 | a failed schema or document request stops the script before tables are submitted; otherwise every Airtable table is submitted as its prototype table in one call, whose outcome is the result |
| Wizard.RemoveAll | src/pages/Index.tsx:87 | the id no longer occurs in the filtered list, which is no longer than the original |
| Wizard.RemoveAllCounts | src/pages/Index.tsx:87 | the filtered list holds every other element as often as before and the id not at all |
| Wizard.RemoveAllConcat | src/pages/Index.tsx:87 | filtering distributes over concatenation |
| Wizard.RemoveAbsent | src/pages/Index.tsx:87 | filtering out an absent id leaves the list unchanged |
| Wizard.RemoveAllNoDuplicates | src/pages/Index.tsx:87 | filtering keeps a duplicate-free list duplicate-free |
| Wizard.RemoveAllMiddle | src/pages/Index.tsx:87 | removing the single occurrence of an id keeps the others in place |
| Wizard.Toggled | src/pages/Index.tsx:84-90 | an absent id is appended at the end; a present id is removed |
| Wizard.ToggledCounts | src/pages/Index.tsx:86-88 | toggling a selected id removes every occurrence of it and keeps every other id as often as it was there |
| Wizard.ToggledNoDuplicates | src/pages/Index.tsx:84-90 | toggling keeps the selection free of duplicates |
| Wizard.ToggledRemovesInPlace | src/pages/Index.tsx:86-87 | deselecting an id keeps the other selected ids in their order |
| Wizard.ToggledTwice | src/pages/Index.tsx:86-88 | toggling an absent id twice restores the selection |
| Wizard.MigrationWizard.constructor | src/pages/Index.tsx:29-36 | the wizard starts at step 1 with every input empty and no busy flag |
| Wizard.MigrationWizard.SetAirtableToken | src/pages/Index.tsx:194 | only the Airtable token changes |
| Wizard.MigrationWizard.SetGristUrl | src/pages/Index.tsx:365 | only the Grist URL changes |
| Wizard.MigrationWizard.SetGristToken | src/pages/Index.tsx:379 | only the Grist token changes |
| Wizard.MigrationWizard.HandleTokenValidation | src/pages/Index.tsx:54-73 | a blank token changes nothing; otherwise step 2 with the busy flag lowered again |
| Wizard.MigrationWizard.HandleBaseSelection | src/pages/Index.tsx:75-82 | records the base and moves to step 3 |
| Wizard.MigrationWizard.HandleTableToggle | src/pages/Index.tsx:84-90 | only the selection changes, toggled for the id, and stays free of duplicates |
| Wizard.MigrationWizard.HandleProceedToGrist | src/pages/Index.tsx:92-102 | an empty selection changes nothing; otherwise step 4 |
| Wizard.MigrationWizard.HandleFreeFromAirtable | src/pages/Index.tsx:104-123 | a blank Grist token or URL changes nothing; otherwise step 5 with the import flag lowered again |
| Wizard.MigrationWizard.StepProgress | src/pages/Index.tsx:125-127 | the progress is 20 per step, between 20 and 100, and 100 exactly on the last step |
| Wizard.MigrationWizard.ResetFlow | src/pages/Index.tsx:129-136 | back to step 1 with every input and the selection cleared; the busy flags keep their values |

## Left out

- Network access, request headers, `credentials`, JSON encoding and decoding: every response is a parameter holding its decoded body.
- Logging (`console.error`, `console.log`) and toast notifications: they do not affect results.
- The text of error messages: errors are datatype values that carry the same status, status text or id.
- `Airtable.QueryString`: does not percent-encode names and values as `URLSearchParams` does.
- `Airtable.RecordsUrl`: the ids are put into the path as given; the request URLs of the other endpoints are not modelled.
- Airtable.GetAllRecords: requires that some answer ends the paging (an error, or a page without a truthy offset); against a server whose every page carries a truthy offset the code's loop never ends, which the model does not capture.
- Strings.IntToString: writes every integer in plain decimal; JavaScript writes magnitudes of 10^21 and above in exponent form (`1e+21`) and cannot hold integers above 2^53 exactly, and neither case is modelled (the code only passes 100).
- Airtable.QueryParams: the page size is an integer; a fractional page size (which would be written as `2.5`) and NaN (falsy, so left out of the query) are not modelled.
- Airtable field `options` objects are not part of `Airtable.Field`; they are passed through untouched by the code.
- `Grist.AirtableToGristFieldType`: the lookup ignores keys inherited by JavaScript objects (such as `constructor`), which the code would return; such types map to Text here.
- `Wizard.MigrationWizard.StepProgress`: computes with integers, which equals the floating-point expression only on the five valid steps.
- `createAirtableService` and `createGristService`: they only call the constructors, modelled as `Airtable.NewAirtableService` and `Grist.NewGristService`.
- The timed waits of the wizard and the asynchronous ordering of React state updates: each handler's updates are applied in order, at once.
- The page's JSX rendering, the mock bases and tables, and the step components under `src/components/migration`.
- The Python Airtable client (`fetch_schema`, `pull_records_from_table`), `at_to_grist_records` and `at_base_to_grist_doc`: the script's schema fetch is the `schemaResp` parameter of `GristPrototype.ImportSchema`; the others are unfinished or unused.
- The Flask handlers (`app.py`, `airtable_handler.py`, `grist_handler.py`) and `vite.config.ts`: server wiring, not migration logic.
