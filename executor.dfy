/** The request-building side of the dgo executor (executor.go): the client
    check, the transaction choice, the mutation request assembled from
    mutation builders, and the key paths used to decode a response. The
    dgo calls themselves (`QueryWithVars`, `Do`, `Commit`, `Discard`) are
    not part of this model. */
module Executor {
  import opened Base
  import opened Variables
  import opened Names
  import opened Assembler

  /** Handles to a dgo client and to a dgo transaction. */
  datatype Client = Client(id: nat)
  datatype Txn = Txn(id: nat)

  /** `DGoExecutor`: `None` stands for a nil pointer. */
  datatype DGoExecutor = DGoExecutor(client: Option<Client>, tnx: Option<Txn>, readOnly: bool, bestEffort: bool)

  const MissingClientMessage: string := "cannot execute query without setting a dqlx. use DClient() to set one"

  /** `ensureClient`: an error exactly when no client is set. */
  function EnsureClient(e: DGoExecutor): (err: Option<Error>)
    ensures err.Some? <==> e.client.None?
    ensures err.Some? ==> err.value.message == MissingClientMessage
  {
    if e.client.None? then Some(Error(MissingClientMessage)) else None
  }

  /** The transaction `getTnx` hands out. */
  datatype TxnChoice = Ambient(txn: Txn) | NewReadOnlyTxn(from: Client) | NewTxn(from: Client)

  /** `getTnx`: the executor's own transaction when set; otherwise a new one
      from the client, read-only exactly when the executor is. Without either
      the source dereferences a nil client. */
  function GetTnx(e: DGoExecutor): (t: TxnChoice)
    requires e.tnx.Some? || e.client.Some?
    ensures e.tnx.Some? <==> t.Ambient?
    ensures t.Ambient? ==> e.tnx == Some(t.txn)
    ensures e.tnx.None? ==> (t.NewReadOnlyTxn? <==> e.readOnly) && e.client == Some(t.from)
  {
    if e.tnx.Some? then Ambient(e.tnx.value)
    else if e.readOnly then NewReadOnlyTxn(e.client.value)
    else NewTxn(e.client.value)
  }

  /** What `ExecuteQueries` sends before any transaction is opened: the
      client check comes first, then the compiled document. */
  method PrepareQueries(e: DGoExecutor, queries: seq<QueryBuilder>, f: Formatter) returns (r: Result<Document>)
    requires e.client.Some? ==> ArgsCover(Flatten(Uniquify(queries)))
    ensures e.client.None? ==> r == Err(Error(MissingClientMessage))
    ensures e.client.Some? ==> r == CompileQuery(Flatten(Uniquify(queries)), f)
  {
    var err := EnsureClient(e);
    if err.Some? {
      return Err(err.value);
    }
    r := QueriesToDQL(queries, f);
  }

  /** `MutationBuilder`: the compiled condition (if any), the set and delete
      data (`Nil` when not given) and the attached query. */
  datatype MutationBuilder = MutationBuilder(condition: Option<DQL>, setData: Value, delData: Value, query: QueryBuilder)

  /** The set and delete payloads; `None` is a nil byte slice. */
  datatype Payloads = Payloads(setJson: Option<seq<byte>>, deleteJson: Option<seq<byte>>)

  /** `mutationData`: each side is marshalled only when given; the set side
      is marshalled first and its failure wins. */
  function MutationData(m: MutationBuilder, marshal: Value -> Result<seq<byte>>): (r: Result<Payloads>)
    ensures r.Ok? <==> (m.setData != Nil ==> marshal(m.setData).Ok?) && (m.delData != Nil ==> marshal(m.delData).Ok?)
    ensures r.Ok? ==> (r.value.setJson.None? <==> m.setData == Nil) && (r.value.deleteJson.None? <==> m.delData == Nil)
    ensures r.Ok? && r.value.setJson.Some? ==> marshal(m.setData) == Ok(r.value.setJson.value)
    ensures r.Ok? && r.value.deleteJson.Some? ==> marshal(m.delData) == Ok(r.value.deleteJson.value)
    ensures r.Err? && m.setData != Nil && marshal(m.setData).Err? ==> r.error == marshal(m.setData).error
    ensures r.Err? && !(m.setData != Nil && marshal(m.setData).Err?) ==> r.error == marshal(m.delData).error
  {
    var setBytes := if m.setData == Nil then Ok(None) else
      (match marshal(m.setData) case Ok(b) => Ok(Some(b)) case Err(e) => Err(e));
    if setBytes.Err? then Err(setBytes.error)
    else
      var deleteBytes := if m.delData == Nil then Ok(None) else
        (match marshal(m.delData) case Ok(b) => Ok(Some(b)) case Err(e) => Err(e));
      if deleteBytes.Err? then Err(deleteBytes.error) else Ok(Payloads(setBytes.value, deleteBytes.value))
  }

  /** `api.Mutation`, as far as the source fills it in. */
  datatype Mutation = Mutation(setJson: Option<seq<byte>>, deleteJson: Option<seq<byte>>, cond: string, commitNow: bool)

  /** One round of the mutation loop: the condition's error comes before any
      marshalling; the condition's arguments are dropped. */
  function MutationRecord(m: MutationBuilder, e: DGoExecutor, marshal: Value -> Result<seq<byte>>): Result<Mutation>
  {
    if m.condition.Some? && m.condition.value.err.Some? then Err(m.condition.value.err.value)
    else
      var data := MutationData(m, marshal);
      if data.Err? then Err(data.error)
      else Ok(Mutation(data.value.setJson, data.value.deleteJson,
                       if m.condition.Some? then m.condition.value.text else "", e.tnx.None?))
  }

  /** The records of a list of builders, stopping at the first failure. */
  function MutationRecords(ms: seq<MutationBuilder>, e: DGoExecutor, marshal: Value -> Result<seq<byte>>): Result<seq<Mutation>>
    decreases |ms|
  {
    if ms == [] then Ok([])
    else
      var prev := MutationRecords(ms[..|ms| - 1], e, marshal);
      var rec := MutationRecord(ms[|ms| - 1], e, marshal);
      if prev.Err? then prev
      else if rec.Err? then Err(rec.error)
      else Ok(prev.value + [rec.value])
  }

  /** The attached queries, one per builder. */
  function AttachedQueries(ms: seq<MutationBuilder>): seq<QueryBuilder>
    decreases |ms|
  {
    if ms == [] then [] else AttachedQueries(ms[..|ms| - 1]) + [ms[|ms| - 1].query]
  }

  /** `api.Request`, as far as the source fills it in. */
  datatype Request = Request(query: string, vars: Option<map<string, string>>, readOnly: bool, bestEffort: bool,
                             mutations: seq<Mutation>, commitNow: bool)

  /** The query part of the request: nothing when compilation failed (the
      error is not checked) or when the document counts as empty. */
  function OuterQuery(doc: Result<Document>, isEmptyQuery: string -> bool): (string, Option<map<string, string>>)
  {
    if doc.Err? || isEmptyQuery(doc.value.query) then ("", None) else (doc.value.query, Some(doc.value.variables))
  }

  /** Every attached query compiles without a placeholder panic. */
  ghost predicate MutationArgsCover(ms: seq<MutationBuilder>, e: DGoExecutor, marshal: Value -> Result<seq<byte>>)
  {
    MutationRecords(ms, e, marshal).Ok? ==> ArgsCover(Flatten(Uniquify(AttachedQueries(ms))))
  }

  /** The request `ExecuteMutations` sends. */
  function MutationRequest(e: DGoExecutor, ms: seq<MutationBuilder>, marshal: Value -> Result<seq<byte>>,
                           isEmptyQuery: string -> bool, f: Formatter): Result<Request>
    requires e.client.Some? ==> MutationArgsCover(ms, e, marshal)
  {
    if e.client.None? then Err(Error(MissingClientMessage))
    else
      var recs := MutationRecords(ms, e, marshal);
      if recs.Err? then Err(recs.error)
      else
        var outer := OuterQuery(CompileQuery(Flatten(Uniquify(AttachedQueries(ms))), f), isEmptyQuery);
        Ok(Request(outer.0, outer.1, e.readOnly, e.bestEffort, recs.value, e.tnx.None?))
  }

  lemma MutationRecordsStep(ms: seq<MutationBuilder>, e: DGoExecutor, marshal: Value -> Result<seq<byte>>, i: nat)
    requires i < |ms|
    ensures var prev, rec := MutationRecords(ms[..i], e, marshal), MutationRecord(ms[i], e, marshal);
      MutationRecords(ms[..i + 1], e, marshal) ==
        if prev.Err? then prev else if rec.Err? then Err(rec.error) else Ok(prev.value + [rec.value])
    ensures AttachedQueries(ms[..i + 1]) == AttachedQueries(ms[..i]) + [ms[i].query]
  {
    assert ms[..i + 1][..i] == ms[..i];
  }

  /** Once a prefix has failed, the later builders are not looked at. */
  lemma {:induction false} MutationRecordsStop(ms: seq<MutationBuilder>, e: DGoExecutor, marshal: Value -> Result<seq<byte>>, k: nat)
    requires k <= |ms| && MutationRecords(ms[..k], e, marshal).Err?
    ensures MutationRecords(ms, e, marshal) == MutationRecords(ms[..k], e, marshal)
    decreases |ms| - k
  {
    if k < |ms| {
      assert ms[..|ms| - 1][..k] == ms[..k];
      MutationRecordsStop(ms[..|ms| - 1], e, marshal, k);
    } else {
      assert ms[..k] == ms;
    }
  }

  /** `ExecuteMutations` up to the request: the client check, one record and
      one attached query per builder, the unchecked compilation of the
      attached queries and the clearing of an empty query. */
  method PrepareMutations(e: DGoExecutor, mutations: seq<MutationBuilder>, marshal: Value -> Result<seq<byte>>,
                          isEmptyQuery: string -> bool, f: Formatter)
    returns (r: Result<Request>, queries: seq<QueryBuilder>)
    requires e.client.Some? ==> MutationArgsCover(mutations, e, marshal)
    ensures r == MutationRequest(e, mutations, marshal, isEmptyQuery, f)
    ensures r.Ok? ==> queries == AttachedQueries(mutations)
  {
    var err := EnsureClient(e);
    if err.Some? {
      return Err(err.value), [];
    }
    queries := [];
    var mutationRequests: seq<Mutation> := [];
    for index := 0 to |mutations|
      invariant MutationRecords(mutations[..index], e, marshal) == Ok(mutationRequests)
      invariant queries == AttachedQueries(mutations[..index])
    {
      var mutation := mutations[index];
      MutationRecordsStep(mutations, e, marshal, index);
      var condition := "";
      if mutation.condition.Some? {
        var conditionDql := mutation.condition.value;
        if conditionDql.err.Some? {
          MutationRecordsStop(mutations, e, marshal, index + 1);
          return Err(conditionDql.err.value), queries;
        }
        condition := conditionDql.text;
      }
      queries := queries + [mutation.query];
      var data := MutationData(mutation, marshal);
      if data.Err? {
        MutationRecordsStop(mutations, e, marshal, index + 1);
        return Err(data.error), queries;
      }
      var mutationRequest := Mutation(data.value.setJson, data.value.deleteJson, condition, e.tnx.None?);
      mutationRequests := mutationRequests + [mutationRequest];
    }
    assert mutations[..|mutations|] == mutations;
    var doc := QueriesToDQL(queries, f);
    var query, variables := "", None;
    if doc.Ok? {
      query, variables := doc.value.query, Some(doc.value.variables);
    }
    if isEmptyQuery(query) {
      query, variables := "", None;
    }
    r := Ok(Request(query, variables, e.readOnly, e.bestEffort, mutationRequests, e.tnx.None?));
  }

  /** A record exists exactly when every builder's condition compiles and
      its data marshals. */
  lemma {:induction false} MutationRecordsOk(ms: seq<MutationBuilder>, e: DGoExecutor, marshal: Value -> Result<seq<byte>>)
    ensures MutationRecords(ms, e, marshal).Ok? <==> forall i :: 0 <= i < |ms| ==> MutationRecord(ms[i], e, marshal).Ok?
    decreases |ms|
  {
    if ms != [] {
      var init := ms[..|ms| - 1];
      MutationRecordsOk(init, e, marshal);
      assert forall i :: 0 <= i < |init| ==> init[i] == ms[i];
    }
  }

  /** One record per builder, in input order. */
  lemma {:induction false} MutationRecordsContents(ms: seq<MutationBuilder>, e: DGoExecutor, marshal: Value -> Result<seq<byte>>)
    requires MutationRecords(ms, e, marshal).Ok?
    ensures |MutationRecords(ms, e, marshal).value| == |ms|
    ensures forall i :: 0 <= i < |ms| ==> MutationRecord(ms[i], e, marshal) == Ok(MutationRecords(ms, e, marshal).value[i])
    decreases |ms|
  {
    if ms != [] {
      var init := ms[..|ms| - 1];
      MutationRecordsContents(init, e, marshal);
      assert forall i :: 0 <= i < |init| ==> init[i] == ms[i];
    }
  }

  /** The first builder that fails decides the error. */
  lemma MutationRecordsFirstError(ms: seq<MutationBuilder>, e: DGoExecutor, marshal: Value -> Result<seq<byte>>, i: nat)
    requires i < |ms| && MutationRecord(ms[i], e, marshal).Err?
    requires forall j :: 0 <= j < i ==> MutationRecord(ms[j], e, marshal).Ok?
    ensures MutationRecords(ms, e, marshal) == Err(MutationRecord(ms[i], e, marshal).error)
  {
    var pre := ms[..i];
    MutationRecordsOk(pre, e, marshal);
    MutationRecordsStep(ms, e, marshal, i);
    MutationRecordsStop(ms, e, marshal, i + 1);
  }

  /** A record carries the compiled condition text (empty without a
      condition), the payloads of `mutationData` and `CommitNow` exactly
      when the executor has no transaction of its own; a failing condition
      is reported before the data is marshalled. */
  lemma MutationRecordFields(m: MutationBuilder, e: DGoExecutor, marshal: Value -> Result<seq<byte>>)
    ensures var rec := MutationRecord(m, e, marshal);
      rec.Ok? <==> (m.condition.None? || m.condition.value.err.None?) && MutationData(m, marshal).Ok?
    ensures var rec := MutationRecord(m, e, marshal);
      rec.Ok? ==> rec.value.cond == (if m.condition.Some? then m.condition.value.text else "") &&
                  rec.value.commitNow == e.tnx.None? &&
                  Payloads(rec.value.setJson, rec.value.deleteJson) == MutationData(m, marshal).value
    ensures m.condition.Some? && m.condition.value.err.Some? ==>
      MutationRecord(m, e, marshal) == Err(m.condition.value.err.value)
  {
  }

  /** Every builder's attached query is collected, set or not. */
  lemma {:induction false} AttachedQueriesAt(ms: seq<MutationBuilder>)
    ensures |AttachedQueries(ms)| == |ms|
    ensures forall i :: 0 <= i < |ms| ==> AttachedQueries(ms)[i] == ms[i].query
    decreases |ms|
  {
    if ms != [] {
      var init := ms[..|ms| - 1];
      AttachedQueriesAt(init);
      assert forall i :: 0 <= i < |init| ==> init[i] == ms[i];
    }
  }

  /** Without a client nothing is compiled: the missing-client error is
      returned whatever the builders hold. */
  lemma MutationRequestNoClient(e: DGoExecutor, ms: seq<MutationBuilder>, marshal: Value -> Result<seq<byte>>,
                                isEmptyQuery: string -> bool, f: Formatter)
    requires e.client.None?
    ensures MutationRequest(e, ms, marshal, isEmptyQuery, f) == Err(Error(MissingClientMessage))
    ensures EnsureClient(e) == Some(Error(MissingClientMessage))
  {
  }

  /** The request copies `ReadOnly` and `BestEffort`, and it and every
      record commit immediately exactly when the executor has no
      transaction of its own. */
  lemma MutationRequestFlags(e: DGoExecutor, ms: seq<MutationBuilder>, marshal: Value -> Result<seq<byte>>,
                             isEmptyQuery: string -> bool, f: Formatter)
    requires e.client.Some? ==> MutationArgsCover(ms, e, marshal)
    ensures var r := MutationRequest(e, ms, marshal, isEmptyQuery, f);
      r.Ok? ==> r.value.readOnly == e.readOnly && r.value.bestEffort == e.bestEffort &&
                r.value.commitNow == e.tnx.None? && |r.value.mutations| == |ms| &&
                forall i :: 0 <= i < |ms| ==> r.value.mutations[i].commitNow == e.tnx.None?
  {
    if MutationRequest(e, ms, marshal, isEmptyQuery, f).Ok? {
      MutationRecordsContents(ms, e, marshal);
    }
  }

  /** The query part of the request: a failed compilation of the attached
      queries is not reported but leaves the request without a query, and
      so does a query that counts as empty; otherwise the compiled document
      and its variables are sent. */
  lemma MutationRequestQuery(e: DGoExecutor, ms: seq<MutationBuilder>, marshal: Value -> Result<seq<byte>>,
                             isEmptyQuery: string -> bool, f: Formatter)
    requires e.client.Some? && MutationRecords(ms, e, marshal).Ok?
    requires ArgsCover(Flatten(Uniquify(AttachedQueries(ms))))
    ensures var doc, r := CompileQuery(Flatten(Uniquify(AttachedQueries(ms))), f), MutationRequest(e, ms, marshal, isEmptyQuery, f);
      r.Ok? &&
      (doc.Err? ==> r.value.query == "" && r.value.vars.None?) &&
      (doc.Ok? && isEmptyQuery(doc.value.query) ==> r.value.query == "" && r.value.vars.None?) &&
      (doc.Ok? && !isEmptyQuery(doc.value.query) ==> r.value.query == doc.value.query && r.value.vars == Some(doc.value.variables))
  {
  }

  /** A JSON value as decoded into `map[string]interface{}`. */
  datatype Json =
    | JNull
    | JBool(b: bool)
    | JNumber(n: real)
    | JString(s: string)
    | JArray(items: seq<Json>)
    | JObject(fields: map<string, Json>)

  /** `Response`: the raw JSON payload and the key its data sits under. */
  datatype Response = Response(raw: seq<byte>, dataKeyPath: string)

  /** The foreign decoding steps: `json.Unmarshal` into a map,
      `mapstructure.NewDecoder` for a destination, and `decoder.Decode`. */
  datatype Codec = Codec(parse: seq<byte> -> Result<map<string, Json>>,
                         newDecoder: Destination -> Option<Error>,
                         decode: (Json, Destination) -> Option<Error>)

  /** The value handed to the decoder: the whole map for an empty key path,
      otherwise the entry under that exact key (nil when absent). */
  function Selected(values: map<string, Json>, key: string): (j: Json)
  {
    if key == "" then JObject(values) else if key in values then values[key] else JNull
  }

  /** A key path is one map key, not a path: `a.b` does not look inside `a`. */
  lemma DottedKeyIsOneKey(inner: Json)
    ensures Selected(map["a" := JObject(map["b" := inner])], "a.b") == JNull
  {
  }

  /** `Response.Unmarshal`. */
  function Unmarshal(r: Response, into: Destination, c: Codec): (err: Option<Error>)
    ensures c.parse(r.raw).Err? ==> err == Some(c.parse(r.raw).error)
    ensures c.parse(r.raw).Ok? && c.newDecoder(into).Some? ==> err == c.newDecoder(into)
    ensures c.parse(r.raw).Ok? && c.newDecoder(into).None? && r.dataKeyPath != "" ==>
      err == c.decode(if r.dataKeyPath in c.parse(r.raw).value then c.parse(r.raw).value[r.dataKeyPath] else JNull, into)
    ensures c.parse(r.raw).Ok? && c.newDecoder(into).None? && r.dataKeyPath == "" ==>
      err == c.decode(JObject(c.parse(r.raw).value), into)
  {
    var values := c.parse(r.raw);
    if values.Err? then Some(values.error)
    else if c.newDecoder(into).Some? then c.newDecoder(into)
    else c.decode(Selected(values.value, r.dataKeyPath), into)
  }

  /** Decoding one query's result under its own root name, when it has a
      destination. */
  function DecodeOne(raw: seq<byte>, q: QueryBuilder, c: Codec): Option<Error>
  {
    if q.unmarshalInto.None? then None else Unmarshal(Response(raw, q.rootEdge.name), q.unmarshalInto.value, c)
  }

  /** The decoding loop of `toResponse`: the first failure, if any. */
  function DecodeAll(raw: seq<byte>, qs: seq<QueryBuilder>, c: Codec): Option<Error>
    decreases |qs|
  {
    if qs == [] then None
    else
      var prev := DecodeAll(raw, qs[..|qs| - 1], c);
      if prev.Some? then prev else DecodeOne(raw, qs[|qs| - 1], c)
  }

  /** The outer key path: the root name when there is exactly one query. */
  function OuterKey(queries: seq<QueryBuilder>): string
  {
    if |queries| == 1 then queries[0].rootEdge.name else ""
  }

  /** The response for an outer key and the renamed queries. */
  function ResponseOf(raw: seq<byte>, key: string, renamed: seq<QueryBuilder>, c: Codec): Result<Response>
  {
    var err := DecodeAll(raw, renamed, c);
    if err.Some? then Err(err.value) else Ok(Response(raw, key))
  }

  /** What `toResponse` returns. */
  function ResponseFor(raw: seq<byte>, queries: seq<QueryBuilder>, c: Codec): Result<Response>
  {
    ResponseOf(raw, OuterKey(queries), Uniquify(queries), c)
  }

  lemma {:induction false} DecodeAllStop(raw: seq<byte>, qs: seq<QueryBuilder>, c: Codec, k: nat)
    requires k <= |qs| && DecodeAll(raw, qs[..k], c).Some?
    ensures DecodeAll(raw, qs, c) == DecodeAll(raw, qs[..k], c)
    decreases |qs| - k
  {
    if k < |qs| {
      assert qs[..|qs| - 1][..k] == qs[..k];
      DecodeAllStop(raw, qs[..|qs| - 1], c, k);
    } else {
      assert qs[..k] == qs;
    }
  }

  /** `toResponse`: decodes each query that has a destination, under its
      renamed root name, and returns at the first failure. */
  method ToResponse(raw: seq<byte>, queries: seq<QueryBuilder>, c: Codec) returns (r: Result<Response>)
    ensures r == ResponseFor(raw, queries, c)
  {
    var dataPathKey := if |queries| == 1 then queries[0].rootEdge.name else "";
    var queryResponse := Response(raw, dataPathKey);
    var qs := EnsureUniqueQueryNames(queries);
    for index := 0 to |qs|
      invariant DecodeAll(raw, qs[..index], c) == None
    {
      var queryBuilder := qs[index];
      assert qs[..index + 1][..index] == qs[..index];
      if queryBuilder.unmarshalInto.None? {
        continue;
      }
      var singleResponse := Response(raw, queryBuilder.rootEdge.name);
      var err := Unmarshal(singleResponse, queryBuilder.unmarshalInto.value, c);
      if err.Some? {
        DecodeAllStop(raw, qs, c, index + 1);
        return Err(err.value);
      }
    }
    assert qs[..|qs|] == qs;
    r := Ok(queryResponse);
  }

  /** Decoding succeeds exactly when every query with a destination decodes
      under its renamed root name; the response then keeps the raw payload
      and the outer key path. */
  lemma {:induction false} DecodeAllOk(raw: seq<byte>, qs: seq<QueryBuilder>, c: Codec)
    ensures DecodeAll(raw, qs, c).None? <==> forall i :: 0 <= i < |qs| ==> DecodeOne(raw, qs[i], c).None?
    decreases |qs|
  {
    if qs != [] {
      var init := qs[..|qs| - 1];
      DecodeAllOk(raw, init, c);
      assert forall i :: 0 <= i < |init| ==> init[i] == qs[i];
    }
  }

  lemma ResponseOfOk(raw: seq<byte>, key: string, renamed: seq<QueryBuilder>, c: Codec)
    ensures ResponseOf(raw, key, renamed, c).Ok? <==> forall i :: 0 <= i < |renamed| ==> DecodeOne(raw, renamed[i], c).None?
    ensures ResponseOf(raw, key, renamed, c).Ok? ==> ResponseOf(raw, key, renamed, c).value == Response(raw, key)
  {
    DecodeAllOk(raw, renamed, c);
  }

  /** The first failing query decides the error: failures are not
      aggregated, and the queries after it are not decoded. */
  lemma ResponseOfFirstError(raw: seq<byte>, key: string, renamed: seq<QueryBuilder>, c: Codec, i: nat)
    requires i < |renamed| && DecodeOne(raw, renamed[i], c).Some?
    requires forall j :: 0 <= j < i ==> DecodeOne(raw, renamed[j], c).None?
    ensures ResponseOf(raw, key, renamed, c) == Err(DecodeOne(raw, renamed[i], c).value)
  {
    DecodeAllFirstError(raw, renamed, c, i);
  }

  lemma DecodeAllFirstError(raw: seq<byte>, qs: seq<QueryBuilder>, c: Codec, i: nat)
    requires i < |qs| && DecodeOne(raw, qs[i], c).Some?
    requires forall j :: 0 <= j < i ==> DecodeOne(raw, qs[j], c).None?
    ensures DecodeAll(raw, qs, c) == DecodeOne(raw, qs[i], c)
  {
    var pre := qs[..i];
    DecodeAllOk(raw, pre, c);
    assert qs[..i + 1][..i] == pre;
    assert DecodeAll(raw, qs[..i + 1], c) == DecodeOne(raw, qs[i], c);
    DecodeAllStop(raw, qs, c, i + 1);
  }

  /** Each query is decoded into its own destination under its renamed
      root name: the name is the original or `<name>_<index>`. */
  lemma DecodeUsesRenamedName(raw: seq<byte>, queries: seq<QueryBuilder>, c: Codec, i: nat)
    requires i < |queries| && queries[i].unmarshalInto.Some?
    ensures var q := Uniquify(queries)[i];
      DecodeOne(raw, q, c) == Unmarshal(Response(raw, q.rootEdge.name), queries[i].unmarshalInto.value, c) &&
      (q.rootEdge.name == queries[i].rootEdge.name || q.rootEdge.name == Suffixed(queries[i].rootEdge.name, i))
  {
    UniquifyKeeps(queries, i);
  }

  /** With a single query, its decode key and the outer key path coincide. */
  lemma SingleQueryKey(raw: seq<byte>, q: QueryBuilder, c: Codec)
    ensures OuterKey([q]) == q.rootEdge.name
    ensures Uniquify([q])[0] == q
  {
    UniquifyFirst([q]);
  }
}
