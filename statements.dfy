/** Statement accumulation (`addOperation`, `addStatement` and `addPart`,
    query_operation.go): operations are compiled in order into a statement
    list and an argument list that the caller owns, stopping at the first
    error. */
module Statements {
  import opened Base

  /** What compiling a list of operations left behind: the statements and
      arguments appended before the first failure, and that failure. */
  datatype Collected = Collected(statements: seq<string>, args: seq<Value>, failure: Option<Error>)

  function Collect(parts: seq<Operation>): Collected
    decreases |parts|
  {
    if parts == [] then Collected([], [], None)
    else
      var prev := Collect(parts[..|parts| - 1]);
      var d := Compile(parts[|parts| - 1]);
      if prev.failure.Some? then prev
      else if d.err.Some? then prev.(failure := d.err)
      else Collected(prev.statements + [d.text], prev.args + d.args, None)
  }

  /** The arguments of every operation, in order. */
  function AllArgs(parts: seq<Operation>): seq<Value>
    decreases |parts|
  {
    if parts == [] then [] else AllArgs(parts[..|parts| - 1]) + Compile(parts[|parts| - 1]).args
  }

  /** Once a prefix has failed, nothing after it is compiled. */
  lemma {:induction false} CollectStops(parts: seq<Operation>, k: nat)
    requires k <= |parts| && Collect(parts[..k]).failure.Some?
    ensures Collect(parts) == Collect(parts[..k])
    decreases |parts| - k
  {
    if k < |parts| {
      assert parts[..|parts| - 1][..k] == parts[..k];
      CollectStops(parts[..|parts| - 1], k);
    } else {
      assert parts[..k] == parts;
    }
  }

  /** Compilation succeeds exactly when every operation does. */
  lemma {:induction false} CollectSucceeds(parts: seq<Operation>)
    ensures Collect(parts).failure.None? <==> forall i :: 0 <= i < |parts| ==> Compile(parts[i]).err.None?
    decreases |parts|
  {
    if parts != [] {
      var init := parts[..|parts| - 1];
      CollectSucceeds(init);
      assert forall i :: 0 <= i < |init| ==> init[i] == parts[i];
    }
  }

  /** Without a failure there is one statement per operation, in order,
      followed by all their arguments. */
  lemma {:induction false} CollectContents(parts: seq<Operation>)
    requires Collect(parts).failure.None?
    ensures |Collect(parts).statements| == |parts|
    ensures forall i :: 0 <= i < |parts| ==> Collect(parts).statements[i] == Compile(parts[i]).text
    ensures Collect(parts).args == AllArgs(parts)
    decreases |parts|
  {
    if parts != [] {
      var init := parts[..|parts| - 1];
      CollectContents(init);
      assert forall i :: 0 <= i < |init| ==> init[i] == parts[i];
    }
  }

  /** The first failing operation decides the error, and what was appended
      is exactly what the operations before it produced. */
  lemma CollectFailsAt(parts: seq<Operation>, i: nat)
    requires i < |parts| && Compile(parts[i]).err.Some?
    requires forall j :: 0 <= j < i ==> Compile(parts[j]).err.None?
    ensures Collect(parts) == Collect(parts[..i]).(failure := Compile(parts[i]).err)
  {
    var pre := parts[..i];
    CollectSucceeds(pre);
    assert parts[..i + 1][..i] == pre;
    CollectStops(parts, i + 1);
  }

  /** Compiling two lists one after the other is compiling their
      concatenation, and the second list is not touched if the first one
      fails. */
  lemma {:induction false} CollectAppend(a: seq<Operation>, b: seq<Operation>)
    ensures var ca, cb := Collect(a), Collect(b);
      Collect(a + b) == if ca.failure.Some? then ca
                        else Collected(ca.statements + cb.statements, ca.args + cb.args, cb.failure)
    decreases |b|
  {
    if b == [] {
      assert a + b == a;
    } else {
      var init := b[..|b| - 1];
      CollectAppend(a, init);
      assert (a + b)[..|a + b| - 1] == a + init;
      assert (a + b)[|a + b| - 1] == b[|b| - 1];
    }
  }

  /** `bytes.Buffer`. */
  class Buffer {
    var content: string

    constructor ()
      ensures content == ""
    {
      content := "";
    }

    method WriteString(s: string)
      modifies this
      ensures content == old(content) + s
    {
      content := content + s;
    }
  }

  /** The statement and argument slices that `addStatement` appends to
      through pointers. */
  class Collector {
    var statements: seq<string>
    var args: seq<Value>

    constructor ()
      ensures statements == [] && args == []
    {
      statements, args := [], [];
    }

    /** `addStatement`: compiles the parts in order and appends each
        statement and its arguments, returning the first error. */
    method AddStatement(parts: seq<Operation>) returns (err: Option<Error>)
      modifies this
      ensures var c := Collect(parts);
        err == c.failure && statements == old(statements) + c.statements && args == old(args) + c.args
    {
      var i := 0;
      while i < |parts|
        invariant i <= |parts|
        invariant Collect(parts[..i]).failure.None?
        invariant statements == old(statements) + Collect(parts[..i]).statements
        invariant args == old(args) + Collect(parts[..i]).args
      {
        var d := Compile(parts[i]);
        assert parts[..i + 1][..i] == parts[..i];
        if d.err.Some? {
          CollectStops(parts, i + 1);
          return d.err;
        }
        statements := statements + [d.text];
        args := args + d.args;
        i := i + 1;
      }
      assert parts[..i] == parts;
      err := None;
    }

    /** `addOperation`: the same, for a list of operations. */
    method AddOperation(operations: seq<Operation>) returns (err: Option<Error>)
      modifies this
      ensures var c := Collect(operations);
        err == c.failure && statements == old(statements) + c.statements && args == old(args) + c.args
    {
      err := AddStatement(operations);
    }

    /** `addPart`: the arguments are appended even when the part fails; the
        statement is written only when it succeeds. */
    method AddPart(part: Operation, writer: Buffer) returns (err: Option<Error>)
      modifies this, writer
      ensures var d := Compile(part);
        err == d.err && args == old(args) + d.args && statements == old(statements) &&
        writer.content == old(writer.content) + (if d.err.None? then d.text else "")
    {
      var d := Compile(part);
      args := args + d.args;
      if d.err.Some? {
        return d.err;
      }
      writer.WriteString(d.text);
      err := None;
    }
  }
}
