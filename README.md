# dqlx compilation pipeline in Dafny

A model of the core of dqlx, a Go query builder for the Dgraph graph
database. The core compiles independently built query trees into one
parameterised DQL document and assembles the mutation request sent to the
server. It also decides which key of the JSON response each query is decoded
from.

- **Placeholders** (`placeholders.dfy`). `replacePlaceholders` scans the query
  for `??` markers from left to right. It writes `transform(i, args[i])` in
  place of the i-th marker and records `i ↦ args[i]`.
- **Variables** (`variables.dfy`). `goTypeToDQLType`, `toVariableValue` and
  `toVariables` build the `$k` variable map and the `$k:type` declarations.
- **Statements** (`statements.dfy`). `addOperation`, `addStatement` and
  `addPart` append statements and arguments, which the caller passes by
  pointer. They are modelled as a `Collector` class whose fields the methods
  update. `bytes.Buffer` is a `Buffer` class.
- **Names** (`names.dfy`). `ensureUniqueQueryNames` renames a clashing query
  to `<name>_<index>`.
- **Assembler** (`assembler.dfy`). `queryOperation.ToDQL` compiles variable
  blocks first, then root blocks. It joins the statements with single spaces
  and names the query after its title-cased root names. It emits
  `query Name($0:t, ...) { body }`. `QueriesToDQL` flattens several queries
  into one document.
- **Executor** (`executor.dfy`). This file covers the client check
  (`ensureClient`), the transaction choice (`getTnx`), the mutation loop and
  outer request of `ExecuteMutations`, `mutationData`, `toResponse`, and the
  key-path branch of `Response.Unmarshal`.

An operation tree is abstract. An `Operation` has a name (`GetName`) and a
compile function from its root name to Go's `(text, args, error)` triple.
Renaming a root edge can therefore change its compiled text.

Some things are external to the model: Go's `%v`, RFC 3339 formatting,
`json.Marshal`, `json.Unmarshal`, the mapstructure decoder and `IsEmptyQuery`.
They enter as function-valued parameters (`Formatter`, `marshal`, `Codec`,
`isEmptyQuery`). Go's nil interface is the value `Nil`, and a nil pointer is
`None`.

Two Go functions are each split into a spec function and methods. The spec
function `CompileQuery` states what `queryOperation.ToDQL` returns. The method
`ToDQL` computes it, with its first and last steps as the methods
`JoinBlockNames` and `RenderDocument`.

## Model

| member | source | states |
|---|---|---|
| Placeholders.FindMarker | query_operation.go:139 | the position returned is -1 or the start of a `??` marker |
| Placeholders.FindMarkerLeftmost | query_operation.go:139-142 | the marker found is the leftmost one; -1 exactly when the text holds no marker |
| Placeholders.ReplacePlaceholders | query_operation.go:133-157 | the i-th marker from the left becomes `transform(i, args[i])` and the text between markers is copied; the map binds exactly the indices 0..n-1, each to `args[i]`; a query without markers comes back unchanged with an empty map; the source indexes `args` unchecked, so n ≤ \|args\| is required |
| Placeholders.SplitRoundTrip | query_operation.go:138-155 | writing `??` back between the copied segments gives the query again: nothing but the markers is replaced |
| Placeholders.SplitSegments | query_operation.go:139-147 | no copied segment holds a marker, and no segment before a marker ends in `?`, because the scan cuts at the leftmost marker |
| Placeholders.NoMarkerOneSegment | query_operation.go:138-143 | the marker count is zero exactly when the text holds no `??`, and then the text is one segment |
| Placeholders.MarkerCountConcat | query_operation.go:57 | joining two texts with a character other than `?` neither creates nor loses markers |
| Variables.GoTypeToDQLType | query_operation.go:116-131 | `int` exactly for signed integers other than `int16`; `float` exactly for floats; `bool` exactly for booleans; `datetime` exactly for `time.Time` and `*time.Time`; `string` exactly for strings, `int16`, unsigned integers, nil and every other type |
| Variables.ToVariableValue | query_operation.go:89-98 | time values, by value or pointer, are written in RFC 3339 form at whole-second precision; every other value in its `%v` form |
| Variables.SortedKeysMembers | query_operation.go:76 | the sorted key list holds each key of the map exactly once and nothing else |
| Variables.SortedKeysAscending | query_operation.go:76 | the sorted key list is strictly ascending |
| Variables.VarNameInjective | query_operation.go:80 | distinct indices give distinct `$k` names |
| Variables.ContiguousDeclarations | query_operation.go:72-87 | for keys exactly 0..n-1 there are n declarations, and the k-th is `$k:` followed by the wire type of the k-th value |
| Variables.ContiguousVariableMap | query_operation.go:72-87 | for keys exactly 0..n-1, `$k` maps to the textual form of the k-th value, and no other name is in the map |
| Variables.PositionalRead | query_operation.go:82 | values are read by loop position, not by key: with the single key 1, `$1` gets the text of the value under key 0 (nil) |
| Variables.ToVariables | query_operation.go:72-87 | returns the variable map and the declaration list of the specification, walking the keys in ascending order |
| Statements.CollectSucceeds | query_operation.go:174-187 | collection succeeds exactly when every operation compiles |
| Statements.CollectContents | query_operation.go:174-187 | without a failure there is one statement per operation, in order, and the arguments are all operations' arguments in order |
| Statements.CollectFailsAt | query_operation.go:176-180 | the first failing operation's error is returned, and only the operations before it have appended anything |
| Statements.CollectStops | query_operation.go:178-180 | once a prefix has failed, later operations are never compiled |
| Statements.CollectAppend | query_operation.go:49-55 | collecting two lists in a row is collecting their concatenation; the second list is ignored if the first fails |
| Statements.Collector.AddStatement | query_operation.go:174-187 | returns the first error; the statements and arguments of the operations before it are appended to the caller's lists |
| Statements.Collector.AddOperation | query_operation.go:164-172 | the same as `addStatement` on the operations |
| Statements.Collector.AddPart | query_operation.go:189-200 | the part's arguments are appended even when it fails; its text is written only when it succeeds; no statement is added |
| Names.Uniquify | query_operation.go:100-114 | renaming keeps the number of queries |
| Names.UniquifyPrefix | query_operation.go:104-111 | renaming never looks ahead: a prefix is renamed exactly as it would be alone |
| Names.UniquifyAt | query_operation.go:105-107 | query i is renamed to `<name>_<i>` exactly when its name is among the names the earlier queries ended up with; otherwise it is kept |
| Names.UniquifyKeeps | query_operation.go:104-110 | only the root name changes, to the original or `<name>_<i>`; the root's compilation, variable blocks and destination are kept |
| Names.UniquifyFirst | query_operation.go:104-110 | the first query is never renamed |
| Names.UniquifyRenamesRepeats | query_operation.go:105-109 | a name that occurs earlier in the input is always renamed |
| Names.UniquifyDistinct | query_operation.go:100-114 | with no name repeated, nothing is renamed |
| Names.UniquifyDistinctNames | query_operation.go:100-114 | if no name holds an underscore, all names after renaming are pairwise distinct |
| Names.UniquifyFirstOccurrence | query_operation.go:100-114 | if no name holds an underscore, the first occurrence of a name is untouched |
| Names.RepeatedNameAfterRenaming | query_operation.go:105-109 | counterexample: `x_2`, `x`, `x` becomes `x_2`, `x`, `x_2`, so distinct names are not guaranteed in general |
| Names.FreshNameRenamed | query_operation.go:105-109 | counterexample: `a`, `a`, `a_1` becomes `a`, `a_1`, `a_1_2`, so the first occurrence of `a_1` is renamed |
| Names.EnsureUniqueQueryNames | query_operation.go:100-114 | the loop over the set of names in use returns the renamed queries of the specification |
| Assembler.JoinBlockNames | query_operation.go:38-44 | the query name is the title-cased, lower-cased root names joined by `_` |
| Assembler.RenderDocument | query_operation.go:57-69 | joins the statements with spaces, replaces the markers, builds the variable table and writes `query Name(decls) { body }` |
| Assembler.ToDQL | query_operation.go:36-70 | returns the first compilation error or the assembled document of the specification |
| Assembler.CompileQueryOk | query_operation.go:46-55 | the document compiles exactly when every variable block and root block compiles |
| Assembler.CompileQueryFirstError | query_operation.go:46-55 | the error returned is that of the first failing block, taking variable blocks before root blocks |
| Assembler.VariableErrorFirst | query_operation.go:49-51 | a failing variable block decides the error whatever the root blocks hold |
| Assembler.CollectBalanced | query_operation.go:57 | blocks with one marker per argument, joined by spaces, give a body with one marker per collected argument |
| Assembler.WellFormedCompiles | query_operation.go:46-61 | when every block compiles and is balanced, the document compiles from the joined block texts and all their arguments, without a placeholder panic |
| Assembler.AssembleText | query_operation.go:57-69 | with one marker per argument the text is `query Name(` + the declarations `$k:type_k` in order + `) { ` + the body with the k-th marker replaced by `$k` + ` }` |
| Assembler.AssembleVariables | query_operation.go:59-62 | with one marker per argument, `$k` maps to the text of the k-th argument and nothing else is bound |
| Assembler.AssembleNoMarkers | query_operation.go:57-69 | a body without markers gives `query Name() { body }` with an empty variable map |
| Assembler.RootEdgesAt | query_operation.go:25-31 | one root edge per query, in input order |
| Assembler.QueriesName | query_operation.go:38-44 | the block names of several queries are their title-cased root names, one per query, in order |
| Assembler.QueriesToDQL | query_operation.go:21-34 | renames clashing queries, gathers root edges and variable blocks query by query, and compiles them as one document |
| Executor.EnsureClient | executor.go:206-211 | an error exactly when no client is set, with the missing-client message |
| Executor.GetTnx | executor.go:213-224 | the executor's transaction when set; otherwise a new transaction from the client, read-only exactly when the executor is |
| Executor.PrepareQueries | executor.go:54-62 | without a client the missing-client error comes back before any compilation; with one, the compiled document |
| Executor.MutationData | executor.go:183-204 | each payload is absent exactly when its data is nil, and is otherwise the marshalled bytes; a failure on either side fails the call, and the set side's failure wins |
| Executor.PrepareMutations | executor.go:83-134 | returns the request of the specification and, on success, one attached query per builder |
| Executor.MutationRecordsOk | executor.go:91-117 | the records exist exactly when every builder's condition compiles and its data marshals |
| Executor.MutationRecordsContents | executor.go:91-117 | one record per builder, in input order |
| Executor.MutationRecordsFirstError | executor.go:91-107 | the first failing builder's error is returned |
| Executor.MutationRecordFields | executor.go:92-114 | a record holds the condition text (empty without a condition), the payloads and `CommitNow` exactly when the executor has no transaction; a failing condition is reported before any marshalling |
| Executor.AttachedQueriesAt | executor.go:102 | every builder's attached query is collected, one per builder, in order |
| Executor.MutationRequestNoClient | executor.go:84-86 | without a client the missing-client error is returned, whatever the builders hold |
| Executor.MutationRequestFlags | executor.go:109-134 | the request copies `ReadOnly` and `BestEffort`; the request and every record set `CommitNow` exactly when the executor has no transaction |
| Executor.MutationRequestQuery | executor.go:119-124 | a failed compilation of the attached queries is not reported and leaves no query and no variables; so does a query that counts as empty; otherwise the document and its variables are sent |
| Executor.Unmarshal | executor.go:231-258 | a parse or decoder-construction error is returned; otherwise the whole map is decoded for an empty key path, and the entry under that key (nil when absent) for any other |
| Executor.DottedKeyIsOneKey | executor.go:254-255 | a key path names one top-level key: `a.b` does not look inside `a` |
| Executor.ToResponse | executor.go:148-181 | returns the response of the specification: the outer key path, or the first decoding failure |
| Executor.DecodeAllOk | executor.go:164-178 | decoding succeeds exactly when every query with a destination decodes |
| Executor.ResponseOfOk | executor.go:157-180 | on success the response keeps the raw payload and the outer key path |
| Executor.ResponseOfFirstError | executor.go:173-176 | the first failing query's error is returned; failures are not aggregated |
| Executor.DecodeAllFirstError | executor.go:164-177 | decoding stops at the first failing query and returns its error |
| Executor.DecodeUsesRenamedName | executor.go:162-173 | each query is decoded into its own destination under its renamed root name |
| Executor.SingleQueryKey | executor.go:151-162 | with a single query, the outer key path is its root name, which is also its decode key |
| Text.TitleLowerAt | query_operation.go:41 | a block name keeps its length; a letter is upper case exactly when it starts a word (first position or after an ASCII separator), lower case otherwise |
| Text.JoinSnoc | query_operation.go:57 | joining one more statement appends the separator and that statement |
| Text.DecInjective | query_operation.go:80 | different numbers print differently under `%d` |

## Left out

- I/O is not modelled: `QueryWithVars`, `Do`, `Commit`, `Discard` and `context`. What `ExecuteQueries` and `ExecuteMutations` do after building the request is left out with it (the commit when not read-only, and passing the server's response to `toResponse`).
- `RespFormat` in the request is a constant and is not modelled.
- `json.Marshal`, `json.Unmarshal`, the mapstructure decoder and its `time.Parse` hook are foreign libraries. They are parameters that may fail.
- `isListType` is Go reflection, and the core does not reach it.
- `%v` and RFC 3339 formatting are parameters of `Formatter`.
- `Text.TitleLowerAt` covers ASCII case mapping and ASCII word separators only. Other characters are left unchanged and never count as separators.
- `getSortedVariables` is not part of this model. Its keys are assumed to come back in ascending order.
- `IsEmptyQuery`, the `DQLizer` implementations and `QueryBuilder.Name` are defined elsewhere. They are parameters, compile functions and `QueryBuilder.WithName`.
- The option setters (`WithTnx` and the rest) and `NewDGoExecutor` only assign fields, so they are not modelled.
- Three Go panics are excluded by preconditions. `replacePlaceholders` can index past `args` (`ArgsCover`, `MutationArgsCover`). `getTnx` can dereference a nil client without a transaction. `toVariableValue` can dereference a nil `*time.Time`; a `TimeRef` always holds an instant.
- Executor.MutationBuilder: the condition is its compiled `(text, args, error)` triple, because the condition's `DQLizer` is defined elsewhere.
- Executor.Response: `Raw` holds only the JSON payload of the server's response.

## Behaviour as written

The descriptions of dqlx's design promise more than its code does. The model
follows the code, and these lemmas state the gaps:

- Renaming does not make names pairwise distinct (`Names.RepeatedNameAfterRenaming`). The first occurrence of a name can be renamed (`Names.FreshNameRenamed`). Both guarantees hold when no name holds an underscore (`Names.UniquifyDistinctNames`, `Names.UniquifyFirstOccurrence`).
- `toResponse` returns the first decoding failure. It does not decode the remaining destinations or aggregate errors (`Executor.ResponseOfFirstError`).
- The error of compiling the attached queries in `ExecuteMutations` is not checked. It leaves the request without a query (`Executor.MutationRequestQuery`).
- The arguments of a mutation condition are discarded, so their markers are never replaced (`Executor.MutationRecordFields`).
- Variable values are written at whole-second precision, so sub-second parts do not survive the wire form (`Variables.ToVariableValue`, `Variables.SubSecondDropped`).
- `int16` and unsigned integers are declared as `string` (`Variables.GoTypeToDQLType`).
