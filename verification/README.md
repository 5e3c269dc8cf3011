# Sales Management System — a Dafny model of its core rules

This project models the logic of a small sales dashboard: a MongoDB-backed query service,
a JSON importer that seeds the store, and a React client that edits query parameters and
sends them. Everything around that logic (the database, the HTTP server, the stream parser,
rendering) is replaced by sequences, maps and pure functions.

- **Query service** (`SalesService`, with `SaleModel`, `SortOrder`, `Paging`, `Selection`,
  `JsStrings`): `getSalesData` builds a conjunctive filter document from the request
  parameters. A search looks in name OR phone, ignoring case. Comma-split lists restrict
  gender, region, category and payment method; a tags list needs one shared tag. Age and
  date bounds are inclusive. The store evaluates the document over a sequence of records.
  The matches are sorted by one field and cut into a skip/limit page, and the result carries
  `total` and `totalPages`. The filter document is related to a declarative predicate
  (`Admits`). The page is related to the sorted matches cut into pages.
- **Importer** (`Seed`, `Batching`): each raw row becomes a record. Columns are renamed,
  text tags are split on commas and trimmed, and a missing transaction id is replaced by a
  generated one. The records are written in batches of 1000 with a final flush. The clear
  step and every insert may fail. Those outcomes, and the generated ids, are parameters.
- **Client** (`App`, `FilterDropdowns`, `Api`): the page's parameter record and its
  handlers. The dropdowns' toggle, Clear and Apply behaviour is modelled too. List filters
  are sent as comma-joined text, and empty parameters are dropped. The payment-method and
  tag selections are blanked before sending, so they never reach the server. The model
  proves this end to end, together with the fact that a sent selection arrives at the
  server's split as exactly the options chosen.

The age dropdown's draft is created once from the parameters and is not resynchronised.
After Reset, the next Apply sends the bounds typed before the reset again
(`App.ResetKeepsAgeDraft`).

A failed insert of the final, partial batch is only logged: the run still prints its
completion message and exits with code 0. A failed insert of a full batch exits with code 1.

## Model

| member | source | states |
|---|---|---|
| SaleModel.ParsePath | backend/src/models/Sale.js:3-38 | a dotted path names a field exactly when some field the schema declares carries that path |
| SaleModel.Lookup | backend/src/models/Sale.js:3-39 | the field found has the name looked up and is in the list; none found means no listed field has that name |
| SalesService.SearchPartMeaning | backend/src/services/salesService.js:26-31 | the search clause selects a record exactly when the search is empty or the name or the phone contains it, ignoring case |
| SalesService.InPartMeaning | backend/src/services/salesService.js:34-37 | a list parameter selects exactly the records whose field is one of its comma-split pieces; an empty parameter selects all |
| SalesService.TagsPartMeaning | backend/src/services/salesService.js:38 | the tags parameter selects exactly the records sharing at least one tag with its comma-split pieces |
| SalesService.RangePartMeaning | backend/src/services/salesService.js:40-50 | the bound clause selects exactly the records within the supplied inclusive bounds, each bound applying on its own |
| SalesService.CustomerListsMeaning | backend/src/services/salesService.js:34-36 | the gender, region and category clauses together select exactly the records admitted by all three lists |
| SalesService.ListPartsMeaning | backend/src/services/salesService.js:34-38 | all membership clauses together select exactly the records admitted by every list and by the tag overlap |
| SalesService.RangePartsMeaning | backend/src/services/salesService.js:40-50 | the age and date clauses together select exactly the records within both pairs of bounds |
| SalesService.FilterMeaning | backend/src/services/salesService.js:23-50 | the built filter document selects a record exactly when the record satisfies every active constraint |
| SalesService.NoParametersNoRestriction | backend/src/services/salesService.js:23-50 | with no filter parameter supplied, every record matches |
| Selection.Keep | backend/src/services/salesService.js:61 | every record kept is a record of the input that passes, and every passing record of the input is kept |
| Selection.KeepMultiplicity | backend/src/services/salesService.js:61 | a passing record is kept exactly as many times as it occurs in the input, and a failing one not at all |
| Selection.KeepAppend | backend/src/services/salesService.js:61 | selecting from two sequences laid end to end selects from each in turn, so the kept records keep their store order |
| Selection.KeepCountsPositions | backend/src/services/salesService.js:61-66 | the number of records found equals the number of positions of the store that pass |
| SalesService.CountIsFindLength | backend/src/services/salesService.js:61-66 | the count of the filter equals the number of records the find returns |
| SortOrder.DirectionOf | backend/src/services/salesService.js:53-54 | the sort is ascending exactly when order is "asc"; any other value, or none, sorts descending |
| SortOrder.LexLeTotal | backend/src/services/salesService.js:53-54 | any two texts are comparable in the string order |
| SortOrder.LexLeTransitive | backend/src/services/salesService.js:53-54 | the string order is transitive |
| SortOrder.PrecedesTotal | backend/src/services/salesService.js:53-54 | any two sort keys are comparable in either direction |
| SortOrder.PrecedesTransitive | backend/src/services/salesService.js:53-54 | the order on sort keys is transitive in either direction |
| SortOrder.Insert | backend/src/services/salesService.js:62 | inserting adds exactly the one element to the multiset of the sequence |
| SortOrder.InsertChained | backend/src/services/salesService.js:62 | inserting into an ordered sequence keeps it ordered |
| SortOrder.ChainedIsOrdered | backend/src/services/salesService.js:62 | a sequence in which each element precedes the next is ordered between every pair |
| SortOrder.SortOn | backend/src/services/salesService.js:62 | the sorted sequence is a permutation of the input and each element precedes the next |
| SortOrder.SortByOrdered | backend/src/services/salesService.js:53-62 | sorting the matches by the named field is a permutation ordered by that field in the requested direction |
| SortOrder.OrderedWindow | backend/src/services/salesService.js:62-64 | a skip/limit slice of an ordered sequence holds only its elements and is ordered |
| SalesService.PageNum | backend/src/services/salesService.js:57 | the page number is at least 1: the page asked for when that is at least 1, else 1 |
| Paging.OffsetIsProduct | backend/src/services/salesService.js:59 | the number of records skipped before page p is (p - 1) * limit |
| Paging.CeilDiv | backend/src/services/salesService.js:74 | the page count is 0 exactly for no records, and the smallest count of pages of the limit that holds them all |
| Paging.CeilDivIsCeiling | backend/src/services/salesService.js:74 | the page count is the ceiling of total divided by limit |
| Paging.Window | backend/src/services/salesService.js:63-64 | the slice has length min(limit, remaining) and holds the records from the skip position on |
| Paging.PageListFlatten | backend/src/services/salesService.js:57-74 | the pages laid end to end give back the whole sequence |
| Paging.PageBeyondEnd | backend/src/services/salesService.js:57-64 | a page past the last is empty |
| Paging.PageAtSkip | backend/src/services/salesService.js:59-64 | page p of a sequence starts at position (p - 1) * limit and holds limit elements, or the fewer that remain, or none when that position is at or past the end |
| Paging.PageInRange | backend/src/services/salesService.js:57-64 | a page within range is non-empty and is that entry of the page list |
| SalesService.GetSalesData | backend/src/services/salesService.js:53-76 | at most limit rows; page and limit echoed; total is the number of matches; totalPages is its ceiling over the limit |
| SalesService.ReturnedRowsMatch | backend/src/services/salesService.js:23-64 | every returned row is a store record satisfying every active constraint, and the rows are ordered by the sort field |
| SalesService.TotalCountsMatches | backend/src/services/salesService.js:66 | total is the number of store positions whose records satisfy every constraint |
| SalesService.TotalIgnoresPaging | backend/src/services/salesService.js:66-74 | total depends on neither page nor limit; totalPages does not depend on the page |
| SalesService.AnswerForPage | backend/src/services/salesService.js:57-64 | asking for page j returns page j of the same sorted matches |
| SalesService.PagesBeyondTheEndAreEmpty | backend/src/services/salesService.js:57-74 | a page past totalPages is empty rather than an error; a page within range is non-empty |
| SalesService.PagesReassembleMatches | backend/src/services/salesService.js:57-74 | pages 1 to totalPages, asked for in turn, laid end to end reproduce the sorted matches, none repeated or skipped |
| JsStrings.Split | backend/src/services/salesService.js:34-38 | splitting gives at least one piece and no piece contains the separator |
| JsStrings.SplitCount | backend/src/services/salesService.js:34-38 | a split has one piece more than the text has separators |
| JsStrings.JoinOfSplit | backend/seed.js:56 | joining the pieces of a split with the separator gives the text back |
| JsStrings.SplitOfJoin | frontend/src/App.jsx:47-49 | splitting a join of separator-free pieces gives the pieces back |
| JsStrings.JoinEmpty | frontend/src/App.jsx:47-49 | a join of non-empty pieces is empty exactly when there are no pieces |
| JsStrings.Trim | backend/seed.js:56 | the result is a contiguous part of the text left by removing white space at the ends, and it neither starts nor ends with white space |
| JsStrings.TrimUnpadded | backend/seed.js:56 | trimming text with no white space at its ends changes nothing |
| JsStrings.TrimAll | backend/seed.js:56 | every piece is trimmed in place, none added or dropped |
| JsStrings.TrimmedSplit | backend/seed.js:56 | trimming the pieces of a split keeps one piece per separator plus one, each trimmed from its piece and free of the separator |
| JsStrings.OccursIffContains | backend/src/services/salesService.js:28-29 | the substring test holds exactly when the pattern occurs at some position |
| JsStrings.ContainsIgnoreCaseMeaning | backend/src/services/salesService.js:28-29 | a case-insensitive match means the lower-cased pattern occurs in the lower-cased text |
| JsStrings.DecimalRoundTrip | backend/seed.js:48 | reading back the decimal digits of a number gives the number |
| JsStrings.DecimalSign | backend/seed.js:48 | the decimal text starts with '-' exactly for a negative number, followed by the magnitude's digits |
| JsStrings.DecimalInjective | backend/seed.js:48 | distinct numbers have distinct decimal texts |
| Seed.CustomerFieldsRenamed | backend/seed.js:42-50 | each customer field holds its raw column, cast to the schema's type |
| Seed.ProductFieldsRenamed | backend/seed.js:51-57 | each product field holds its raw column, cast to the schema's type |
| Seed.FiguresRenamed | backend/seed.js:58-65 | each sale figure holds its raw column as a number |
| Seed.OperationalFieldsRenamed | backend/seed.js:66-75 | each operational field, the salesperson included, holds its raw column |
| Seed.FieldsAreRenamedColumns | backend/seed.js:42-75 | every field but the transaction id is the cast of exactly one raw column, e.g. operational.salesPerson.name from "Employee Name" |
| Seed.TransactionIdFallback | backend/seed.js:41 | the transaction id is the raw one when that is truthy, and otherwise the generated one |
| Seed.TagsFromText | backend/seed.js:56 | text tags give one tag per comma plus one, each the trimmed piece, none containing a comma |
| Seed.TagsRoundTrip | backend/seed.js:56 | when no piece is padded, the tags are exactly the pieces and joining them with commas gives the text back |
| Batching.FillBatches | backend/seed.js:78-93 | the loop writes the full batches in order, each exactly the next page of the records; the count is the records written; a failed full write stops it |
| Batching.WriteRemainder | backend/seed.js:96-109 | the end-of-stream flush writes a non-empty remainder; a failed final write is not recorded and the run still completes |
| Batching.WriteInBatches | backend/seed.js:78-109 | the batches written are the first pages of the records, each of 1 to 1000 records and all but the last full; the store gains exactly them; the exit code is 1 only after a failed full write; when every write succeeds the batches laid end to end are the records and the count is their number |
| Batching.RunIsBatched | backend/seed.js:78-109 | once the writes are known to be the first pages of the records and each completion or stop is known, the batch shapes and the all-success outcome follow |
| Batching.RunBound | backend/seed.js:78-109 | a run never writes more batches than there are pages, and a failed run stops before the last page |
| Batching.RunSucceeds | backend/seed.js:96-102 | when every write succeeds, the run completes with exit code 0 and the store gains every record in order |
| Seed.ImportData | backend/seed.js:18-109 | a successful clear leaves only the new records; a failed clear is only logged, and whatever records it left stay ahead of the new ones; the batches written are the first pages of 1000 transformed rows, each write of them succeeded; the exit code is 1 exactly when a full batch failed, and then the run stopped there; a completed run wrote every page or all but a failed final remainder; when every write succeeds the store gains every transformed row in order |
| Api.CleanParams | frontend/src/services/api.js:9-11 | the sent parameters are exactly the input entries whose value is not null, undefined or '', each unchanged |
| Api.CleanIdempotent | frontend/src/services/api.js:9-11 | cleaning cleaned parameters changes nothing |
| Api.CleanIgnoresDropped | frontend/src/services/api.js:9-11 | parameters that agree on every sendable entry are sent alike |
| FilterDropdowns.Without | frontend/src/components/FilterDropdowns.jsx:20 | the option no longer occurs; every other option keeps its membership and its number of occurrences |
| FilterDropdowns.WithoutAppend | frontend/src/components/FilterDropdowns.jsx:20 | filtering distributes over concatenation, so the rest keeps its order |
| FilterDropdowns.WithoutAbsent | frontend/src/components/FilterDropdowns.jsx:20 | filtering out an option that is not selected changes nothing |
| FilterDropdowns.WithoutDistinct | frontend/src/components/FilterDropdowns.jsx:20 | filtering keeps a selection free of repeats |
| FilterDropdowns.ToggleOption | frontend/src/components/FilterDropdowns.jsx:18-23 | a toggle flips the option's membership and no other; a selected option is removed everywhere; an unselected one is appended at the end |
| FilterDropdowns.ToggleTwice | frontend/src/components/FilterDropdowns.jsx:18-23 | toggling an unselected option twice restores the selection; a selected one moves to the end |
| FilterDropdowns.ToggleDistinct | frontend/src/components/FilterDropdowns.jsx:18-31 | toggling keeps a selection free of repeats, and its size, shown on the button, moves by exactly one |
| FilterDropdowns.ToggleWithinOptions | frontend/src/components/FilterDropdowns.jsx:36-43 | toggling an offered option keeps the selection among the offered options |
| FilterDropdowns.MultiSelect | frontend/src/components/FilterDropdowns.jsx:46-53 | Clear reports the empty selection and is offered only when something is selected; a toggle always reports |
| FilterDropdowns.InitialDraft | frontend/src/components/FilterDropdowns.jsx:63-64 | the draft starts at the applied bounds themselves |
| FilterDropdowns.RangeStep | frontend/src/components/FilterDropdowns.jsx:75-116 | edits change only their own bound and report nothing; Apply reports the draft unchanged; Clear, offered exactly when min or max is non-empty, empties the draft and reports ('', '') |
| FilterDropdowns.ApplyReportsTyped | frontend/src/components/FilterDropdowns.jsx:96-108 | typing both bounds and pressing Apply reports exactly what was typed |
| FilterDropdowns.ApplyAfterClear | frontend/src/components/FilterDropdowns.jsx:109-116 | after Clear, Apply reports the same empty bounds |
| App.OptionsTransportable | frontend/src/App.jsx:8-14 | every offered option is non-empty and free of commas |
| App.HandleFilterChange | frontend/src/App.jsx:64-66 | only the given list filter takes the new values, the page returns to 1, and nothing else changes |
| App.HandleAgeChange | frontend/src/App.jsx:68-70 | both age bounds are replaced and the page returns to 1; nothing else changes |
| App.HandleSearch | frontend/src/App.jsx:72-74 | the search is replaced and the page returns to 1; nothing else changes |
| App.HandleSortChange | frontend/src/App.jsx:76-83 | the three menu values set field and direction together; any other value changes nothing; the page is never reset |
| App.HandleReset | frontend/src/App.jsx:85-100 | reset yields exactly the initial state |
| App.PrevPage | frontend/src/App.jsx:243-244 | disabled on page 1, otherwise one page back; the page never drops below 1 |
| App.NextPage | frontend/src/App.jsx:251 | one page on, with no upper bound |
| App.Request | frontend/src/App.jsx:44-55 | the query holds exactly the sendable converted parameters; payment method and tags are never in it |
| App.ScalarsInRequest | frontend/src/App.jsx:44-55 | page and limit are always sent; search and each age bound are sent exactly when not empty |
| App.RequestIgnoresPaymentAndTags | frontend/src/App.jsx:50-52 | states that differ only in their payment-method and tag selections send the same query |
| App.SelectionInRequest | frontend/src/App.jsx:47-49 | a sent list filter arrives as its selection joined with commas and is absent when nothing is selected |
| App.SelectionReachesServer | frontend/src/App.jsx:47-49 | the server's comma split admits a value exactly when the selection is empty or holds it |
| App.StepValid | frontend/src/App.jsx:64-100 | every offered event keeps the page at least 1, the limit 10, an offered sort, and distinct offered selections |
| App.RunValid | frontend/src/App.jsx:21-34 | any sequence of offered events keeps those invariants |
| App.ReachableSelectionsReachServer | frontend/src/App.jsx:130-142 | in any reachable state, a sent list filter admits exactly the selected options at the server |
| App.ResetKeepsAgeDraft | frontend/src/components/FilterDropdowns.jsx:63-64 | reset clears the applied bounds but not the draft, so the next Apply re-applies the old draft |
| App.ClearedAgeNotSent | frontend/src/components/FilterDropdowns.jsx:112 | clearing the age range removes both bounds from the query |

## Left out

- Database, server and stream plumbing: connections, `find`/`countDocuments`/`insertMany`/`deleteMany` as real operations, Express routing and the controller's error mapping, the streaming JSON parser with pause/resume. The store is a sequence, an insert appends, and the importer loops over already-decoded rows.
- The stream-error handler (exit code 1) and the service's rethrow with a message prefix: no error source is modelled for them.
- `Number()` and `new Date()` coercion and NaN: numbers and dates are integers, and text dates are not parsed.
- SalesService.GetSalesData: requires a limit of at least 1, because `limit=0` or a non-numeric limit gives a division by zero or NaN in the source, and a negative limit is handed on to the store's `limit`, which reads a negative value by rules of its own that are not modelled.
- The regular-expression meaning of the search: it is modelled as a literal substring, lower-cased over ASCII letters only.
- SortOrder.SortOn: the order among records with equal keys is that of one stable insertion sort, while the store gives no defined tie order. What SortOrder.SortOn and SortOrder.SortByOrdered state, the permutation and the ordering, holds for any tie order.
- SalesService.PagesReassembleMatches: assumes that every request sees the matches in the same order, ties included. The store does not promise this across separate skip/limit queries, so with tied sort keys two pages may repeat one record and skip another.
- SalesService.AnswerForPage: assumes the same single tie order for the request for page j and for the original request.
- Sorting on a list-valued field, on a path that names an embedded document (`sortBy=customer`, `product`, `sale`, `operational` or `operational.salesPerson`), or on a path that names no field, gives every record the same key, so only the tie order applies. The store compares embedded documents field by field and has its own rules for arrays and missing fields; none of these is modelled.
- Seed.ImportData: a failed `deleteMany` may have removed any part of the old records; the model takes the survivors, in the order the store keeps them, as the parameter `kept`, which may be any sub-multiset of the old records. Which records survive is not modelled.
- Batching.WriteInBatches: a failed `insertMany` is modelled as inserting nothing of that batch; a partial insert is not modelled.
- Seed.ToDoc: requires every column but the transaction id to be present with a value the schema can cast; rows with missing or wrongly typed columns are not modelled.
- The schema's casting of a list into a text field, and `String()` of a number in exponent form.
- The order of `Object.entries`, and so the order of parameters in the query string.
- React effects and rendering, the open/close state and click-outside listeners of the dropdowns, the static sidebar and the hard-coded summary figures.
- SaleModel.ParsePath: that distinct fields have distinct paths is not proved.
- SaleModel.ParsePath: the `createdAt` and `updatedAt` paths that the schema's timestamps option adds, and the store's `_id`, are not modelled, because the store sets them at insert time from its clock and id generator. A sort on them gives every record the same key here, while the store sorts by creation time or id.
- The request's asynchrony: each parameter change is modelled as one synchronous request, and responses arriving out of order are not modelled.
