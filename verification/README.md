# go-doudou: verified models

go-doudou generates Go services, their OpenAPI documents and their database layer from
interfaces and structs. This project models the algorithms in it that are hard to get right
by reading, and proves what they keep, what they undo and exactly when they fail:

- `ScrollPipeline.dfy`, `Schedules.dfy`, `ScrollOutcomes.dfy`, `Hiding.dfy`,
  `HidingSchedule.dfy`, `LostFailures.dfy`: the scroll branch of `Es.List`, one producer, N
  workers, a closer and a collector over two unbuffered channels and an errgroup. Every
  interleaving is a sequence of enabled steps; the write of the shared variable `err`, its
  test, and the second read that wraps it are three steps.
- `QueryTree.dfy`, `QueryCompiler.dfy`: a recursive condition tree compiled into a mutable bool
  query with the meaning Elasticsearch 6.8 gives it.
- `Criteria.dfy`, `CriteriaMeaning.dfy`: SQL criteria printed as text, a reader for that text,
  and what the text means on the rows of a table.
- `TagText.dfy`, `TagRoundTrip.dfy`, `TagMeaning.dfy`: a column printed as a struct field with a
  `dd` tag, the parser of that tag, and both in plain text.
- `IndexGrouping.dfy`, `IndexReverse.dfy`, `IndexRoundTrip.dfy`, `TableRebuild.dfy`: index
  grouping with a stable sort, the transposition of `SHOW INDEXES`, and reverse-then-forward.
- `Migration.dfy`: the forward synchronisation loop on a database of tables and columns.
- `TypeText.dfy`, `SchemaTexts.dfy`: Go type text to OpenAPI schema and back ("Data Types" and
  "Schema Object" of the OpenAPI Specification 3.0.2), and which texts are built in or files.
- `RestApi.dfy`: the method check of the service generator and the request half of the
  operations it guards.
- `Membership.dfy`, `RoundRobin.dfy`: the member list, discovery, and the shared counter.
- `Flattening.dfy`, `ParamNames.dfy`: promoted fields and generated parameter names.
- `Prelude.dfy`, `Text.dfy`: sequences, and the functions of `strings` and `strconv` used.

Code that updates state is a class or a method with its loops; the iteration order of a Go map
is an arbitrary choice from the keys that are left, so every contract of such a loop holds for
all orders. A Go panic or returned error is a result (`panicked`, `None`, a verdict).

Texts that the code writes or looks for are fixed by theorems that spell them out, so that they
do not rest on a definition that a printer and a reader share: `CriteriaMeaning`, `TagMeaning`
and `SchemaTexts`, and the rows of the other modules that mention a text.

## What the proofs show about the code

- `Es.List` never sends on or closes a closed channel. It can hang on line 43 of `list.go` for
  some schedule if and only if there are more hits than workers and a hit before the last one
  makes the callback fail (`DeadlockIff`). Otherwise every schedule ends with `List` returned.
- The workers share `err`. A worker that succeeds sets it to nil, and a worker that failed
  before then sends its value after all, or, if it has already tested `err`, wraps nil and
  leaves without an error while its hit is dropped. So a list with a nil error can contain
  the value of a failed call, or be too short (`BadHitVanishes`). `ListDespiteFailureIff` and
  `ShortListIff` give the exact condition on the hits and the number of workers, a count that
  needs no schedule (`CanHide`). With one worker, or when every hit fails, a failure is always
  reported; a single failing hit can be lost exactly when there is another worker and another
  hit. Without a failing callback the list is always complete.
- A condition tree that asks for nothing but has a SHOULD root condition matches every
  document, where its own meaning matches none; this is the only disagreement
  (`RootMeaningIff`).
- Quotes in SQL literals are not escaped, so two different lists can print the same text
  (`QuotesAreNotEscaped`).
- A column is recovered from its tag exactly when no text has `;`, `:` or a quote before a
  space, and the last text does not end in a quote (`RoundTripIff` of `TagRoundTrip`). A column
  in two indexes of one kind loses one of them (`ReverseForward`); a colon in a default or a
  comment does not matter to the indexes.
- A schema with a file in it does not survive the way through Go text (`RoundTripIff` of
  `TypeText`).
- The method check lets several file parameters through, and then all but the last are
  overwritten in the request body (`Describe`).
- A node that joins with metadata that do not decode and is updated later makes the update
  callback panic; `NoPanicIff` says which event sequences do not.
- Selections of a service node are fair in every interleaving if and only if there is at most
  one caller or at most one node (`FairIff`). The counter itself never leaves its range
  (`RunInv`).

## Model

| member | source | states |
|---|---|---|
| ScrollPipeline.StepInv | esutils/list.go:27-83 | Every step of every goroutine keeps the invariant: who may close which channel, the received hits are a prefix of the scrolled ones, each received hit is held, collected or dropped, values travel with their hits, a hit is dropped only after an error or a failing callback, an error in `err` is about to be tested, wrapped or reported, and nobody leaves early unless a callback failed |
| ScrollPipeline.Safety | esutils/list.go:24-116 | In every schedule, with or without errors: no send on or second close of a channel, `hits` is closed before `c`, while the producer runs each scrolled hit is in exactly one place, a returned list has a nil error and every scrolled hit is collected or dropped exactly once, the returned values are what the callback, or the decoding without one, gives for the collected hits, all are collected when no callback fails, and the error of a failed call is the scroll's own error or the one that the callback returned for a scrolled hit, never the cancellation that follows it |
| ScrollPipeline.FirstErrorStays | esutils/list.go:24-88 | Once a goroutine of the group has reported an error, the group keeps that error through every further step |
| ScrollPipeline.ListedAll | esutils/list.go:54-85 | A returned list is complete exactly when no hit was dropped, and no hit is dropped unless a callback failed |
| ScrollPipeline.NothingEnabledIff | esutils/list.go:27-87 | A reachable state has no enabled step exactly when List has returned and all goroutines are gone, or every worker has left while the producer is blocked on the send |
| ScrollPipeline.Terminates | esutils/list.go:24-87 | Every schedule is finite: its length is bounded by a measure of pages, hits and goroutines |
| ScrollPipeline.RunToEnd | esutils/list.go:24-87 | From any reachable state some continuation ends in completion or in the deadlock |
| ScrollOutcomes.FlawlessEnd | esutils/list.go:24-116 | Without a failing callback or scroll, any schedule that cannot be continued has returned all values, each once, and a nil error |
| ScrollOutcomes.DeadlockIff | esutils/list.go:37-45 | Some schedule hangs on line 43 if and only if there are more hits than workers and a hit before the last one fails |
| ScrollOutcomes.ReturnsUnlessDeadlock | esutils/list.go:24-116 | When that condition does not hold, every schedule can be continued until List has returned, and none goes on for ever |
| LostFailures.HideBack | esutils/list.go:63-69 | Along any run that returns a list the condition for hiding failures held in every state |
| HidingSchedule.HideRun | esutils/list.go:63-69 | From any state in which all workers wait or hold a hit and the condition holds, a schedule returns a list that is complete, or one that misses exactly one failing hit |
| LostFailures.ListDespiteFailureIff | esutils/list.go:24-116 | With a failing hit, some schedule returns a complete list and a nil error, and some schedule a short one, if and only if the scroll succeeds and the failures can be hidden by the successes of other workers |
| LostFailures.ShortListIff | esutils/list.go:63-87 | Some schedule returns fewer values than hits and a nil error if and only if a callback fails, the scroll succeeds and the failures can be hidden |
| LostFailures.FailureReportedIff | esutils/list.go:65-85 | Every run that returns reports an error if and only if that is not so |
| LostFailures.ReportedWhenAloneOrAllFail | esutils/list.go:50-85 | With one worker, or when every hit fails, a run that returns reports an error |
| LostFailures.OneFailureLostIff | esutils/list.go:50-85 | A single failing hit can go unreported if and only if there are another worker and another hit and the scroll succeeds |
| LostFailures.BadHitVanishes | esutils/list.go:63-69 | For two hits of which the first fails and ten workers, a schedule returns the second value alone and a nil error |
| QueryCompiler.Compile | esutils/base.go:332-354 | Fails exactly when an entry has the wrong dynamic type; otherwise the compiled query requires one SHOULD clause exactly when a root condition is SHOULD, and it matches a document if and only if date range, all MUST, no MUSTNOT and some SHOULD (when a root condition is SHOULD) hold, or the tree asks for nothing at all |
| QueryCompiler.DateQuery | esutils/base.go:333-341 | The query starts with the date range as its only clause when field, start and end are all given, and empty otherwise |
| QueryCompiler.CompileTree | esutils/base.go:314-330 | Adds to the given query clauses that ask for exactly what the condition asks for, at any nesting depth and in query and filter context |
| QueryCompiler.CompileNode | esutils/base.go:190-312 | The same for the entries of one condition, for every order of map iteration |
| QueryCompiler.EntryQuery | esutils/base.go:191-310 | One entry: panics exactly on a wrong dynamic type, gives a clause exactly when the entry asks for something, and the clause is the one of its kind: all values of a TERMS entry, the text of a PREFIX or WILDCARD entry, and for RANGE the bounds of the map, each included unless the map's flag says otherwise |
| QueryCompiler.PhraseQuery | esutils/base.go:229-261 | A phrase list holds when some non-empty item does or when all items are empty |
| QueryCompiler.PlusQuery | esutils/base.go:234-247 | `a+b+-c` matches exactly the documents with a and b and not c, blank words ignored |
| QueryCompiler.PlusMeaning | esutils/base.go:234-247 | An item of words joined by plus signs holds when the document has the phrase of each word, or lacks it where the word starts with a minus sign |
| QueryCompiler.GroupMatches | esutils/base.go:315-327 | A nested group: all MUST, no MUSTNOT, and SHOULD required only without MUST or in filter context |
| QueryCompiler.RootMatches | esutils/base.go:332-354 | The minimum of one SHOULD set at the root gives the root's meaning |
| QueryCompiler.EmptyShouldMatchesNothing | esutils/base.go:343-352 | When no SHOULD condition asks for anything, the root's meaning holds for no document |
| QueryCompiler.RootMeaningIff | esutils/base.go:332-354 | Query and root meaning agree on every document unless the tree asks for nothing and has a SHOULD condition |
| Criteria.Sql | ddl/query/query.go:174-176 | Prints the tree fully parenthesised, criteria by line 52 and pairs by line 175 |
| Criteria.CritSql | ddl/query/query.go:52-86 | Prints one criterion, with the In list joined by commas and literals quoted |
| Criteria.Read | ddl/query/query.go:52-86 | The reader is sound: what it accepts is the printed form of what it returns, followed by the continuation it returns |
| Criteria.ReadIff | ddl/query/query.go:52-176 | The printed tree followed by a delimiter reads back as that tree and that continuation if and only if its columns have no backtick, quoted texts no quote, and unquoted texts balance and show no delimiter outside parentheses |
| Criteria.ReadWholeIff | ddl/query/query.go:52-176 | The whole text that Sql returns reads back as the tree, with nothing left, if and only if the same holds, where the operand of a lone criterion need not balance |
| Criteria.UniquelyReadable | ddl/query/query.go:151-194 | For such trees equal text means the same And/Or tree, a scalar given to In counting as a list of one |
| Criteria.QuotesAreNotEscaped | ddl/query/query.go:60-72 | Two different In lists with a quote in a literal print the same text |
| Criteria.BuildableIff | ddl/query/query.go:88-194 | Some calls of the builder methods show a form if and only if every criterion has one operand or is a list, lists are quoted as a whole or not at all, and `is` and `is not` are followed by null |
| CriteriaMeaning.TextMeansTree | ddl/query/query.go:52-176 | Evaluating the printed text of a readable tree on any row, with the SQL keywords `and` and `or` and the nine comparison symbols, gives what the tree says of that row: And both sides, Or either side |
| CriteriaMeaning.SqlMeans | ddl/query/query.go:52-176 | The same for the text that Sql returns |
| CriteriaMeaning.ScalarTexts | ddl/query/query.go:52-86 | The text of a criterion with one operand, for every symbol, quoted and unquoted |
| CriteriaMeaning.ListTexts | ddl/query/query.go:52-86 | The text of an In criterion: values in parentheses, with commas, quoted each when they are literals |
| CriteriaMeaning.PairTexts | ddl/query/query.go:174-176 | The text of a pair: both sides in order, between parentheses, around `and` or `or` |
| TagText.NewFieldFromColumn | ddl/table/table.go:419-470 | The appended clauses, in order, make the field of the column; fails where the type is unknown |
| TagText.ParseField | ddl/table/table.go:190-344 | The loops over tags and clauses compute the parse of the field; fails where Atoi or the type does |
| TagRoundTrip.RoundTrip | ddl/table/table.go:190-357 | For texts without separators, without a quote before a space and without a quote at the end, parsing the printed field gives back key, autoincrement, nullability, type, extra, automatic setting, the quoted default and the last index of each kind |
| TagRoundTrip.RoundTripIff | ddl/table/table.go:190-470 | With clean index names, the column is recovered if and only if no printed text contains a semicolon, a colon or a quote before a space, and the last one does not end in a quote |
| TagRoundTrip.TaggedIs | ddl/table/table.go:205-215 | Splitting on quote and space and trimming quotes finds the text the printer put into the tag, without quotes at its end |
| TagRoundTrip.IndexesParsed | ddl/table/table.go:190-342 | With clean index names and no semicolon or quote before a space in the other texts, the last index of each kind is recovered, whatever else the texts contain |
| TagRoundTrip.FeedItems | ddl/table/table.go:234-281 | Of the printed index clauses the last of each kind survives, with its order and sort |
| TagMeaning.TagIs | ddl/table/table.go:419-470 | The printed tag, letter by letter, for every column: pk, auto, type, default (quoted unless in parentheses or the current time), extra and the indexes but PRIMARY with name, order and sort |
| TagMeaning.GoTypeIs | ddl/table/table.go:72-101 | The Go type of every column type, by the beginning of its name in either case; any other type panics |
| TagMeaning.Untagged | ddl/table/table.go:52-70 | A field without a tag gets the column type of its Go type, and may be null exactly when it is a pointer |
| TagMeaning.Words | ddl/table/table.go:283-323 | What each of the six words of a tag sets, with the default index name, order 1 and ascending sort; other words are ignored |
| TagMeaning.Pairs | ddl/table/table.go:217-232 | What type, default and extra set, the current time also the automatic flag; unknown keys are ignored |
| TagMeaning.IndexPairs | ddl/table/table.go:234-281 | An index clause with or without sort sets name, order and sort, ascending by default; without an order it panics |
| TagMeaning.RestIgnored | ddl/table/table.go:217-281 | A value ends at its first colon, and an index clause at its third part |
| TagMeaning.OtherTagsSkipped | ddl/table/table.go:205-213 | Tags of other packages before the dd tag do not matter |
| TagMeaning.LaterTagsIgnored | ddl/table/table.go:205-213 | Nor do tags behind the first dd tag |
| IndexGrouping.Group | ddl/table/table.go:366-385 | The map holds, under each name, the items of the fields that name it in field order |
| IndexGrouping.PartsInOrder | ddl/table/table.go:366-385 | The items of a name are those of the entries with that name, in the order of the entries |
| IndexGrouping.BuildIndexes | ddl/table/table.go:366-408 | One index for each name, plain ones first, its items those of the naming fields, stably sorted by Order |
| IndexGrouping.SortedIs | ddl/table/table.go:36-44 | The sorted items ascend, are the same items, and keep field order within one Order |
| IndexGrouping.StableSortUnique | ddl/table/table.go:36-44 | Being ascending and stable determines the sorted list |
| IndexGrouping.OrderDoesNotMatter | ddl/table/table.go:389-406 | Any two orders of map iteration build the same multiset of indexes |
| IndexReverse.GroupRows | ddl/exec.go:125-136 | The map holds, under each key name, its rows in the order read |
| IndexReverse.Transpose | ddl/exec.go:138-173 | For every order of map iteration: one index for each key name with the items of its rows, and under each column the items of that column in the order they were filed. When the rows of each index agree on `Non_unique`, every index of a name is unique exactly when its rows say so, and every row stands in the index of its name and under its column with its own flag, order and sort |
| IndexReverse.FlagsShown | ddl/exec.go:138-173 | That last part for any transposed indexes: rows and shown items correspond both ways |
| IndexReverse.TransposeConserves | ddl/exec.go:125-173 | Each item occurs in the built indexes as often as among the rows, and under column c as often if it is an item of column c and never otherwise |
| IndexReverse.TransposeTotal | ddl/exec.go:138-173 | The built indexes together hold as many items as rows were read |
| IndexRoundTrip.RoundTripIndexesIff | ddl/exec.go:125-209 | The rebuilt indexes have the same names, uniqueness, ordered columns and sorts if and only if each column is in at most one plain and at most one unique index besides PRIMARY |
| TableRebuild.NewTableIndexes | ddl/table/table.go:190-408 | Parses every field in order and builds the indexes its tags claim; fails exactly when a field does not parse |
| TableRebuild.TextParsed | ddl/exec.go:180-209 | Fields printed for the columns parse to the columns' names and to the last index of each kind; colons and quotes in types, defaults and comments do not matter, only semicolons and a quote before a space |
| TableRebuild.ReverseForwardIff | ddl/exec.go:125-209 | Rows to columns to parsed tags to indexes: the rebuilt indexes are the ones that were read if and only if each column is in at most one plain and at most one unique index besides PRIMARY |
| TableRebuild.ReverseForward | ddl/exec.go:125-209 | The whole way as one program, from rows and columns to rebuilt indexes: it panics exactly on an unknown column type, and for every map iteration order the result is the indexes that were read if and only if each column is in at most one plain and at most one unique index besides PRIMARY; the same in terms of the rows' own flags |
| TableRebuild.RowsRebuiltIff | ddl/exec.go:125-209 | When the rows of each index agree on `Non_unique`: every row but those of PRIMARY has its column, order and sort in the rebuilt index of its name, a plain one if the row says so and else a unique one, and nothing else is rebuilt, if and only if no column stands in two rows with the same flag |
| TableRebuild.PrintFields | ddl/exec.go:180-209 | Every column gets the items filed under its name and is printed; fails exactly on an unknown column type |
| TableRebuild.PrintedFieldsParse | ddl/table/table.go:419-470 | Fields printed by the reverse direction never make the forward direction fail |
| Migration.Migrate | ddl/exec.go:83-111 | With distinct names the loop leads to the target schema, and the statements that the database executed are exactly the planned ones, in order, all successful: CREATE for a missing table, and for each column of a present one CHANGE when it was there and ADD when not |
| Migration.PlanJustified | ddl/exec.go:83-111 | Every planned statement is about a struct, and a table is created or a column added only if it was missing |
| Migration.TargetMeets | ddl/exec.go:83-111 | In the target every struct column exists with the struct's definition, no other column or table is lost or changed, and nothing else appears |
| Migration.Converges | ddl/exec.go:83-111 | A second run leaves the target as it is and needs no CREATE and no ADD |
| Migration.MigrateTwice | ddl/exec.go:83-111 | Two runs in a row: the second issues only successful CHANGE statements |
| TypeText.SchemaOfPrinted | openapi/v3/helper.go:38-103 | SchemaOf on the printed type is the schema by recursion on the type, at any nesting depth |
| TypeText.BracketText | openapi/v3/helper.go:56-75 | Cutting at the first closing bracket leaves exactly the element type's text |
| TypeText.RoundTripIff | openapi/v3/codegen/client/go.go:524-604 | Printing a schema as Go text and reading it again gives the schema back if and only if no file occurs in it |
| TypeText.TextRoundTripIff | openapi/v3/codegen/client/go.go:524-604 | The same for the schema of any text that SchemaOf accepts |
| TypeText.BuiltinIgnoresNames | openapi/v3/helper.go:129-136 | IsBuiltin does not depend on the known schema names |
| SchemaTexts.BasicTexts | openapi/v3/helper.go:38-54 | The OpenAPI type and format of every basic name and of a pointer to it |
| SchemaTexts.ReferenceTexts | openapi/v3/helper.go:82-102 | A capitalised name, with any package and behind a pointer or not, is a reference when it is known and an object of any shape when not |
| SchemaTexts.CollectionTexts | openapi/v3/helper.go:56-75 | Slices and arrays are arrays of their element's schema, maps objects with it as additional properties, whatever the length or key |
| SchemaTexts.BuiltinIff | openapi/v3/helper.go:129-136 | A text is built in exactly when it is one of twenty basic names, or a slice or array of one, through the pointers that are looked through |
| SchemaTexts.FileIff | openapi/v3/helper.go:38-75 | A text has the schema of a file or of a list of files exactly when it is a file header, or a slice or array of them, through such pointers |
| SchemaTexts.AnonymousIff | openapi/v3/helper.go:76-78 | The pattern for anonymous structs matches exactly when the opening mark is followed by a closing mark on its line |
| SchemaTexts.GoScalars | openapi/v3/codegen/client/go.go:524-604 | The Go text of every scalar schema |
| SchemaTexts.GoTexts | openapi/v3/codegen/client/go.go:524-604 | The Go text of references, titled objects, arrays and maps |
| SchemaTexts.PrintedTexts | astutils/funcs.go:191-230 | Printed types have Go's own syntax |
| RestApi.KindIs | svc/svc.go:120-144 | The kind of a parameter from its type's text: contexts, built-in types, pointers to file headers and slices or arrays of them, and the rest |
| RestApi.ValidateMethod | svc/svc.go:113-154 | Accepts exactly the methods without anonymous structs whose body parameters are all files or at most one; names the right reason otherwise |
| RestApi.OperationOf | svc/internal/codegen/doc.go:62-148 | The form case and the other case, with all query parameters in order and the body of the last parameter that is neither a context nor built in, which is multipart form data exactly when that parameter's type is a file header, or a slice or array of them, and JSON otherwise |
| RestApi.KindsIgnoreNames | svc/svc.go:113-148 | The check before the names are known and the generator after it see the same kinds of parameters |
| RestApi.PlacedIff | svc/internal/codegen/doc.go:112-146 | Every parameter but contexts stands in exactly one place of the operation if and only if at most one body is written |
| RestApi.PlacedOnceIff | svc/internal/codegen/doc.go:71-146 | Outside the form case, an accepted method has every parameter placed once if and only if it has at most one file parameter |
| RestApi.Describe | svc/internal/codegen/doc.go:62-148 | Check, then generation: with distinct camel-cased names, the operation of an accepted method shows every parameter but contexts under its own name and with its schema, as form property, query parameter or body (form data for a file, JSON for anything else), and nothing else, if and only if at most one parameter is a file |
| RestApi.RejectedIsOverwritten | svc/svc.go:146-148 | A method rejected for too many types would have had a body overwritten |
| RestApi.FormKeepsAll | svc/internal/codegen/doc.go:79-92 | With distinct camel-cased names every parameter is a property of its own in the form schema |
| RestApi.LastPropertyStays | svc/internal/codegen/doc.go:79-92 | Of several parameters with one camel-cased name the last one's property stays |
| RestApi.FormSize | svc/internal/codegen/doc.go:79-92 | And the form schema has no other properties |
| Membership.IndexOfAny | sliceutils/sliceutils.go:60-72 | The first position of the target, or -1 exactly when it is absent |
| Membership.Registry.NotifyJoin | svc/registry/eventdelegate.go:14-25 | Appends a node with valid metadata and ignores any other |
| Membership.Registry.NotifyLeave | svc/registry/eventdelegate.go:27-39 | Removes the first occurrence; panics exactly for an unknown node with valid metadata |
| Membership.Registry.NotifyUpdate | svc/registry/eventdelegate.go:41-53 | Leaves the list of nodes as it is; panics exactly for an unknown node with valid metadata |
| Membership.Registry.Discover | svc/registry/node.go:47-70 | The alive members of the service in list order; fails exactly when an alive member's metadata does not decode |
| Membership.ServingIs | svc/registry/node.go:51-68 | What is discovered is exactly the alive members of the service, without duplicates |
| Membership.ServingConcat | svc/registry/node.go:51-68 | Discovery keeps the order of the members |
| Membership.MembersAreJoins | svc/registry/eventdelegate.go:14-53 | Over every well-formed event sequence the members are the joined and not left nodes in join order, without duplicates, and every leaving or updated node is found |
| Membership.NoPanicIff | svc/registry/eventdelegate.go:27-53 | No callback panics if and only if at every leave and update with valid metadata the node has joined with valid metadata more often than it has left |
| Membership.Replay | svc/registry/eventdelegate.go:14-53 | The callbacks run in sequence, each with metadata that decode or not: they panic exactly when that fails; otherwise the members are those of the valid events, and for well-formed ones the joined and not left nodes in join order |
| Membership.LateMetadataPanics | svc/registry/eventdelegate.go:41-53 | A node that joined with metadata that do not decode and is updated with valid ones makes the callback panic |
| RoundRobin.StepInv | svc/http/client.go:100-101 | Add and store keep the counter below the largest list plus the callers between their steps, and the chosen index is in range |
| RoundRobin.RunInv | svc/http/client.go:95-104 | For any number of callers and interleaving, with lists of changing length, so that the counter never wraps |
| RoundRobin.Provider.SelectServer | svc/http/client.go:95-104 | One caller: the next index after the counter, which becomes the counter |
| RoundRobin.OneRound | svc/http/client.go:95-104 | n selections in a row choose each of n nodes once, from any counter value |
| RoundRobin.Fair | svc/http/client.go:95-104 | k times n selections in a row choose each of n nodes exactly k times, from any counter value |
| RoundRobin.Provider.SelectMany | svc/http/client.go:95-104 | Any window of k times n selections of one caller contains each of n nodes exactly k times |
| RoundRobin.FairIff | svc/http/client.go:95-104 | In every complete run of m callers on n nodes, from any counter value, every window of k times n selections contains each node k times, if and only if m or n is at most one |
| RoundRobin.OverlappingUnfair | svc/http/client.go:100-101 | For at least two callers and two nodes: two overlapping selections stored in the wrong order, then one caller alone, choose a node twice in a row |
| Flattening.FlatEmbed | ddl/ddlast/ast.go:9-55 | One flattened struct for each table struct in order: direct fields in source order, then one field for each other embedded name, the last of that name |
| Flattening.DocFlatEmbed | astutils/structcollector.go:72-131 | The same for exported structs and exported fields, where an embedded field with a json name stays a field |
| Flattening.FlattenFields | astutils/structcollector.go:101-126 | The loop over one struct, for every order of iteration over the promoted fields |
| Flattening.DirectIs | astutils/structcollector.go:101-126 | The direct fields are, in order, those that are not embedded, and in documentation the exported ones and the embedded ones with a json name, whose type loses its prefix |
| Flattening.EmbeddedIs | astutils/structcollector.go:101-120 | The promoted ones are, in order, the fields (in documentation the exported ones) of the first struct of each other embedded name |
| Flattening.JsonNameIff | astutils/structcollector.go:87-103 | The pattern for json names matches exactly when the opening is followed by a quote on its line |
| Flattening.FirstNamedIs | ddl/ddlast/ast.go:10-15 | The struct of a name is the first one of that name |
| Flattening.FlattenedDistinct | ddl/ddlast/ast.go:34-51 | Field names are distinct when the direct ones are |
| Flattening.FlattenedDetermined | ddl/ddlast/ast.go:46-50 | Two iteration orders give the same direct part and the same set of promoted fields |
| ParamNames.Collect | astutils/interfacecollector.go:66-109 | The loop with its key map gives each entry the field that the number of earlier uses of its key decides; fails exactly on an empty segment |
| ParamNames.KeyIs | astutils/interfacecollector.go:87-95 | An unnamed parameter is keyed by the prefix and the first letter of its type's own name, without pointer, brackets and package |
| ParamNames.FirstNames | astutils/interfacecollector.go:95-102 | The first three names of a key are the key, the key with 2 and the key with 3 |
| ParamNames.PanicIff | astutils/interfacecollector.go:86-95 | Naming panics exactly on an unnamed entry with a type text that ends in a dot or a bracket's end |
| ParamNames.NamesDistinct | astutils/interfacecollector.go:87-102 | The names generated in one list are pairwise distinct when no key of the list contains a digit |
| ParamNames.LetterNamesDistinct | astutils/interfacecollector.go:87-102 | That is so for types whose names start with an ASCII letter, when the case conversion maps letters to texts without digits |
| ParamNames.ParamsApartFromResults | astutils/interfacecollector.go:66-154 | A generated parameter name never equals a generated result name |

## Left out

- The branch of `Es.List` without scrolling (limit between 0 and 10000), the JSON decoding of a hit when there is no callback (a parameter of the model), the wrapping of error texts, panics in callbacks, and the Go memory model: the steps are sequentially consistent, and each read and each write of `err` is one step.
- A bool query is taken as a value when it is added to another; go-elastic keeps a pointer, but nothing changes the inner query afterwards.
- Leaf queries are opaque: a document answers each of them. The version of the search engine is taken from the client library's generation (6.x), including its rule that a bool query in filter context requires a SHOULD clause.
- `Page.Sql`, In with nil data (reflection panics on it), and the rendering of values by `fmt`, whose texts are inputs.
- Criteria.ReadIff: trees not built by the builder methods (several operands outside In, other operands after `is`) are not covered, because no caller can build them.
- Anonymous structs inside type texts keep only their text; struct bodies printed by `toGoType`, channel and function types, identifiers outside ASCII and more than one leading pointer (two on an element) are not modelled.
- The endless recursion of `SchemaOf` on a bracket that is never closed appears as the result `None`.
- The functions of the strcase package are parameters; where needed, that snake case undoes camel case on the column names is a hypothesis.
- TagRoundTrip.RoundTripIff: index names with separators, quotes or commas are excluded, and the unsigned flag, which the tag printer never writes, is not recovered.
- TableRebuild.ReverseForward: the columns of `SHOW FULL COLUMNS` arrive with their flags and cleaned extra texts; computing those (lines 184-204) is a few independent expressions. Writing the Go file and parsing it back to fields is not modelled.
- `strconv.Atoi` is modelled on unbounded integers; `sort.Stable` is an insertion sort, which its contract determines.
- The SQL text of CREATE, CHANGE and ADD, primary keys and indexes in CREATE, case-insensitive names in MySQL and statements that fail for other reasons; a table is a map from column names to definitions.
- Migration.Migrate: with two structs for one table or two fields for one column nothing is claimed about the result.
- Responses, descriptions and comments of an operation, and the choice of the first interface of a file. The field `from` of a placed parameter is added by the model to trace it.
- The gossip of memberlist, whose callbacks are the input; readers that share the backing array of the member slice during an in-place deletion; a registry without a memberlist; the base URL of a node.
- TableRebuild.TextParsed: a semicolon in a text can turn the rest of it into clauses of any kind, also index clauses; what such a table is rebuilt as is not stated.
- RoundRobin.RunInv: an empty node list is not enabled, because line 100 divides by zero on it.
- ParamNames.NamesDistinct: a list in which some entries are named does not occur in Go and is only covered by the loop's contract; blank type texts get an empty name.
- `cast`, `cmd`, the file generators and templates, the HTTP server and its middleware, page-number arithmetic: input and output, or single expressions.
