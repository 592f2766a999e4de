/** The query assembler (`queryOperation.ToDQL` and `QueriesToDQL`,
    query_operation.go): root blocks and variable blocks are compiled into
    one `query <Name>(<declarations>) { ... }` document whose `??` markers
    are replaced by `$k` variables. */
module Assembler {
  import opened Base
  import opened Text
  import opened Placeholders
  import opened Variables
  import opened Statements
  import opened Names

  /** `queryOperation`: the root blocks and the variable blocks of a document. */
  datatype QueryOperation = QueryOperation(operations: seq<Operation>, variables: seq<Operation>)

  /** A compiled document: the DQL text and its `$k` variable map. */
  datatype Document = Document(query: string, variables: map<string, string>)

  /** The name a root block contributes to the query name. */
  function BlockName(op: Operation): string
  {
    Title(ToLower(op.name))
  }

  function BlockNames(ops: seq<Operation>): seq<string>
  {
    seq(|ops|, i requires 0 <= i < |ops| => BlockName(ops[i]))
  }

  function QueryName(ops: seq<Operation>): string
  {
    Join(BlockNames(ops), "_")
  }

  /** Variable blocks are compiled before root blocks. */
  function Parts(g: QueryOperation): seq<Operation>
  {
    g.variables + g.operations
  }

  /** The statements joined by single spaces. */
  function Body(c: Collected): string
  {
    Join(c.statements, " ")
  }

  /** The reference written for marker `index`. */
  function VarToken(index: nat, value: Value): string
  {
    VarName(index)
  }

  /** `replacePlaceholders` reads one argument per marker without a bounds
      check: a document compiles without a panic only when its markers do
      not outnumber the collected arguments. */
  ghost predicate ArgsCover(g: QueryOperation)
  {
    var c := Collect(Parts(g));
    c.failure.None? ==> MarkerCount(Body(c)) <= |c.args|
  }

  function Header(name: string, declarations: seq<string>): string
  {
    "query " + name + "(" + Join(declarations, ", ") + ") {"
  }

  /** The document for a joined body and its collected arguments: the
      header, the body with its markers replaced, and the variable map. */
  function Assemble(name: string, body: string, args: seq<Value>, f: Formatter): Document
    requires MarkerCount(body) <= |args|
  {
    var n := MarkerCount(body);
    var raw := Bindings(n, args);
    Document(Header(name, Declarations(raw)) + " " + Fill(Split(body), Keys(n, args, VarToken)) + " }", VariableMap(raw, f))
  }

  /** What `queryOperation.ToDQL` returns: the first compilation error, or
      the assembled document. */
  function CompileQuery(g: QueryOperation, f: Formatter): Result<Document>
    requires ArgsCover(g)
  {
    var c := Collect(Parts(g));
    if c.failure.Some? then Err(c.failure.value) else Ok(Assemble(QueryName(g.operations), Body(c), c.args, f))
  }

  /** The first step of `queryOperation.ToDQL`: one title-cased name per
      root block, joined by `_`. */
  method JoinBlockNames(ops: seq<Operation>) returns (queryName: string)
    ensures queryName == QueryName(ops)
  {
    var blocNames: seq<string> := seq(|ops|, _ => "");
    for index := 0 to |ops|
      invariant |blocNames| == |ops|
      invariant forall k :: 0 <= k < index ==> blocNames[k] == BlockName(ops[k])
    {
      blocNames := blocNames[index := Title(ToLower(ops[index].name))];
    }
    assert blocNames == BlockNames(ops);
    queryName := Join(blocNames, "_");
  }

  /** The last step of `queryOperation.ToDQL`: the statements are joined,
      their markers replaced, the variable table built and the document
      written out. */
  method RenderDocument(queryName: string, statements: seq<string>, args: seq<Value>, f: Formatter)
    returns (doc: Document)
    requires MarkerCount(Join(statements, " ")) <= |args|
    ensures doc == Assemble(queryName, Join(statements, " "), args, f)
  {
    var innerQuery := Join(statements, " ");
    var query, rawVariables := ReplacePlaceholders(innerQuery, args, VarToken);
    var variables, placeholders := ToVariables(rawVariables, f);

    var writer := new Buffer();
    writer.WriteString("query " + queryName + "(" + Join(placeholders, ", ") + ") {");
    writer.WriteString(" " + query);
    writer.WriteString(" }");
    var text := writer.content;
    assert text == Header(queryName, placeholders) + " " + query + " }";
    doc := Document(text, variables);
  }

  /** `queryOperation.ToDQL`: variable blocks are compiled before root
      blocks, and the first error is returned without a document. */
  method ToDQL(grammar: QueryOperation, f: Formatter) returns (r: Result<Document>)
    requires ArgsCover(grammar)
    ensures r == CompileQuery(grammar, f)
  {
    var ops := grammar.operations;
    var queryName := JoinBlockNames(ops);
    var acc := new Collector();
    ghost var cv, co := Collect(grammar.variables), Collect(ops);
    CollectAppend(grammar.variables, ops);
    var err := acc.AddOperation(grammar.variables);
    if err.Some? {
      return Err(err.value);
    }
    assert acc.statements == cv.statements && acc.args == cv.args;
    err := acc.AddOperation(ops);
    if err.Some? {
      return Err(err.value);
    }
    assert acc.statements == cv.statements + co.statements && acc.args == cv.args + co.args;
    var doc := RenderDocument(queryName, acc.statements, acc.args, f);
    r := Ok(doc);
  }

  /** The document compiles exactly when every block compiles. */
  lemma CompileQueryOk(g: QueryOperation, f: Formatter)
    requires ArgsCover(g)
    ensures CompileQuery(g, f).Ok? <==> forall i :: 0 <= i < |Parts(g)| ==> Compile(Parts(g)[i]).err.None?
  {
    CollectSucceeds(Parts(g));
  }

  /** The error returned is that of the first block that fails. */
  lemma CompileQueryFirstError(g: QueryOperation, f: Formatter, i: nat)
    requires ArgsCover(g)
    requires i < |Parts(g)| && Compile(Parts(g)[i]).err.Some?
    requires forall j :: 0 <= j < i ==> Compile(Parts(g)[j]).err.None?
    ensures CompileQuery(g, f) == Err(Compile(Parts(g)[i]).err.value)
  {
    CollectFailsAt(Parts(g), i);
  }

  /** A failing variable block decides the error whatever the root blocks
      do: the root blocks are not compiled at all. */
  lemma VariableErrorFirst(g: QueryOperation, f: Formatter, i: nat)
    requires i < |g.variables| && Compile(g.variables[i]).err.Some?
    requires forall j :: 0 <= j < i ==> Compile(g.variables[j]).err.None?
    ensures ArgsCover(g)
    ensures CompileQuery(g, f) == Err(Compile(g.variables[i]).err.value)
  {
    CollectFailsAt(g.variables, i);
    CollectAppend(g.variables, g.operations);
  }

  /** A block is balanced when its text holds one marker per argument. */
  predicate Balanced(op: Operation)
  {
    var d := Compile(op);
    d.err.None? ==> MarkerCount(d.text) == |d.args|
  }

  /** Every block compiles and is balanced. */
  predicate WellFormed(g: QueryOperation)
  {
    forall i :: 0 <= i < |Parts(g)| ==> Compile(Parts(g)[i]).err.None? && Balanced(Parts(g)[i])
  }

  function Texts(parts: seq<Operation>): seq<string>
  {
    seq(|parts|, i requires 0 <= i < |parts| => Compile(parts[i]).text)
  }

  /** Balanced blocks joined by spaces hold one marker per collected argument. */
  lemma {:induction false} CollectBalanced(parts: seq<Operation>)
    requires forall i :: 0 <= i < |parts| ==> Balanced(parts[i])
    requires Collect(parts).failure.None?
    ensures MarkerCount(Body(Collect(parts))) == |Collect(parts).args|
    decreases |parts|
  {
    if parts != [] {
      var init := parts[..|parts| - 1];
      assert forall i :: 0 <= i < |init| ==> init[i] == parts[i];
      CollectBalanced(init);
      var prev, d := Collect(init), Compile(parts[|parts| - 1]);
      JoinSnoc(prev.statements, d.text, " ");
      if prev.statements != [] {
        MarkerCountConcat(Body(prev), ' ', d.text);
      }
    }
  }

  /** A well-formed document compiles, and its body holds one marker per
      collected argument. */
  lemma WellFormedCompiles(g: QueryOperation, f: Formatter)
    requires WellFormed(g)
    ensures ArgsCover(g)
    ensures MarkerCount(Join(Texts(Parts(g)), " ")) == |AllArgs(Parts(g))|
    ensures CompileQuery(g, f) == Ok(Assemble(QueryName(g.operations), Join(Texts(Parts(g)), " "), AllArgs(Parts(g)), f))
  {
    var parts := Parts(g);
    CollectSucceeds(parts);
    CollectContents(parts);
    CollectBalanced(parts);
    assert Collect(parts).statements == Texts(parts);
  }

  /** The declarations of the arguments, bound to 0..n-1, in order. */
  lemma BindingsDeclarations(args: seq<Value>)
    ensures Declarations(Bindings(|args|, args)) == seq(|args|, k requires 0 <= k < |args| => Declaration(k, args[k]))
  {
    var raw := Bindings(|args|, args);
    assert IsRange(raw.Keys, |args|);
    ContiguousDeclarations(raw, |args|);
  }

  /** The text of a document whose markers match its arguments: one
      `$k:<type>` declaration per argument in order, and the k-th marker
      replaced by `$k`. */
  lemma AssembleText(name: string, body: string, args: seq<Value>, f: Formatter)
    requires MarkerCount(body) == |args|
    ensures Assemble(name, body, args, f).query ==
      Header(name, seq(|args|, k requires 0 <= k < |args| => Declaration(k, args[k]))) + " " +
      Fill(Split(body), seq(|args|, k requires 0 <= k < |args| => VarName(k))) + " }"
  {
    BindingsDeclarations(args);
    assert Keys(|args|, args, VarToken) == seq(|args|, k requires 0 <= k < |args| => VarName(k));
  }

  /** The variable map of a document whose markers match its arguments:
      `$k` is bound to the textual form of the k-th argument, and nothing
      else is bound. */
  lemma AssembleVariables(name: string, body: string, args: seq<Value>, f: Formatter)
    requires MarkerCount(body) == |args|
    ensures var vars := Assemble(name, body, args, f).variables;
      (forall k :: 0 <= k < |args| ==> VarName(k) in vars && vars[VarName(k)] == ToVariableValue(args[k], f)) &&
      (forall s :: s in vars ==> exists k :: 0 <= k < |args| && s == VarName(k))
  {
    var n := |args|;
    var raw := Bindings(n, args);
    assert IsRange(raw.Keys, n);
    ContiguousVariableMap(raw, n, f);
  }

  /** Without markers the body is copied unchanged and nothing is declared. */
  lemma AssembleNoMarkers(name: string, body: string, args: seq<Value>, f: Formatter)
    requires !HasMarker(body)
    ensures MarkerCount(body) == 0
    ensures Assemble(name, body, args, f) == Document("query " + name + "() { " + body + " }", map[])
  {
    NoMarkerOneSegment(body);
    var raw := Bindings(0, args);
    assert raw.Keys == {};
    assert SortedKeys(raw.Keys) == [];
    assert Fill(Split(body), []) == body;
  }

  /** The root edges of a list of queries, in order. */
  function RootEdges(qs: seq<QueryBuilder>): seq<Operation>
    decreases |qs|
  {
    if qs == [] then [] else RootEdges(qs[..|qs| - 1]) + [qs[|qs| - 1].rootEdge]
  }

  /** The variable blocks of a list of queries, query by query. */
  function VariableEdges(qs: seq<QueryBuilder>): seq<Operation>
    decreases |qs|
  {
    if qs == [] then [] else VariableEdges(qs[..|qs| - 1]) + qs[|qs| - 1].variables
  }

  /** The single document `QueriesToDQL` compiles. */
  function Flatten(qs: seq<QueryBuilder>): QueryOperation
  {
    QueryOperation(RootEdges(qs), VariableEdges(qs))
  }

  /** One root edge per query, in order. */
  lemma {:induction false} RootEdgesAt(qs: seq<QueryBuilder>)
    ensures |RootEdges(qs)| == |qs|
    ensures forall i :: 0 <= i < |qs| ==> RootEdges(qs)[i] == qs[i].rootEdge
    decreases |qs|
  {
    if qs != [] {
      var init := qs[..|qs| - 1];
      RootEdgesAt(init);
      assert forall i :: 0 <= i < |init| ==> init[i] == qs[i];
    }
  }

  /** The query name of several queries is built from their root names,
      one title-cased name per query, in order. */
  lemma QueriesName(qs: seq<QueryBuilder>)
    ensures |BlockNames(RootEdges(qs))| == |qs|
    ensures forall i :: 0 <= i < |qs| ==> BlockNames(RootEdges(qs))[i] == BlockName(qs[i].rootEdge)
  {
    RootEdgesAt(qs);
  }

  lemma FlattenStep(qs: seq<QueryBuilder>, i: nat)
    requires i < |qs|
    ensures RootEdges(qs[..i + 1]) == RootEdges(qs[..i]) + [qs[i].rootEdge]
    ensures VariableEdges(qs[..i + 1]) == VariableEdges(qs[..i]) + qs[i].variables
  {
    assert qs[..i + 1][..i] == qs[..i];
  }

  /** `QueriesToDQL`: renames clashing queries, gathers the root edges and
      every query's variable blocks, and compiles them as one document. */
  method QueriesToDQL(queries: seq<QueryBuilder>, f: Formatter) returns (r: Result<Document>)
    requires ArgsCover(Flatten(Uniquify(queries)))
    ensures r == CompileQuery(Flatten(Uniquify(queries)), f)
  {
    var qs := EnsureUniqueQueryNames(queries);
    var operations: seq<Operation> := [];
    var variables: seq<Operation> := [];
    for index := 0 to |qs|
      invariant operations == RootEdges(qs[..index])
      invariant variables == VariableEdges(qs[..index])
    {
      var query := qs[index];
      FlattenStep(qs, index);
      operations := operations + [query.rootEdge];
      for j := 0 to |query.variables|
        invariant variables == VariableEdges(qs[..index]) + query.variables[..j]
      {
        variables := variables + [query.variables[j]];
        assert query.variables[..j + 1] == query.variables[..j] + [query.variables[j]];
      }
      assert query.variables[..|query.variables|] == query.variables;
    }
    assert qs[..|qs|] == qs;
    r := ToDQL(QueryOperation(operations, variables), f);
  }
}
