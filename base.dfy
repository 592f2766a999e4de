/** Values shared by every part of the dqlx model: Go's dynamic values as seen
    through `interface{}`, errors, compiled fragments and operations. */
module Base {

  datatype Option<T> = None | Some(value: T)

  /** An error value returned to the caller; its text is opaque to the model. */
  datatype Error = Error(message: string)

  datatype Result<T> = Ok(value: T) | Err(error: Error)

  datatype IntKind = GoInt | GoInt8 | GoInt16 | GoInt32 | GoInt64
  datatype UintKind = GoUint | GoUint8 | GoUint16 | GoUint32 | GoUint64 | GoUintptr
  datatype FloatKind = GoFloat32 | GoFloat64

  /** A `time.Time`: seconds since the epoch, the sub-second part and the
      offset of its location from UTC. */
  datatype Instant = Instant(seconds: int, nanos: nat, offsetSeconds: int)

  /** A Go value stored in an `interface{}`, by its dynamic type. */
  datatype Value =
    | Str(s: string)
    | SignedInt(intKind: IntKind, i: int)
    | UnsignedInt(uintKind: UintKind, u: nat)
    | Float(floatKind: FloatKind, f: real)
    | Bool(b: bool)
    | Time(t: Instant)          // a time.Time
    | TimeRef(t: Instant)       // a non-nil *time.Time
    | Nil                       // the nil interface value
    | Other(typeName: string)   // any other dynamic type: structs, maps, slices, ...

  /** Go's `(string, []interface{}, error)` result of `DQLizer.ToDQL`. */
  datatype DQL = DQL(text: string, args: seq<Value>, err: Option<Error>)

  /** An operation of a query tree: the name `GetName` reports and what the
      tree compiles to when its root carries a given name. */
  datatype Operation = Operation(name: string, compile: string -> DQL)

  /** `DQLizer.ToDQL` on an operation. */
  function Compile(op: Operation): DQL
  {
    op.compile(op.name)
  }

  /** A caller-supplied decode destination (the pointer given to `UnmarshalInto`). */
  datatype Destination = Destination(id: nat)

  /** A `QueryBuilder`: its root edge, the root edges of its query-local
      variable blocks, and where its result is to be decoded (if anywhere). */
  datatype QueryBuilder = QueryBuilder(rootEdge: Operation, variables: seq<Operation>, unmarshalInto: Option<Destination>)
  {
    /** `QueryBuilder.Name`: the same builder with its root edge renamed. */
    function WithName(name: string): QueryBuilder
    {
      this.(rootEdge := rootEdge.(name := name))
    }
  }

  newtype byte = x: int | 0 <= x < 256
}
