/** The variable table of a compiled query (query_operation.go): wire types
    inferred from a value's dynamic type, textual variable values, and the
    `$k` variable map with its `$k:type` declarations. */
module Variables {
  import opened Base
  import opened Text

  const WireTypes: set<string> := {"string", "int", "float", "bool", "datetime"}

  /** `goTypeToDQLType`: the DQL type declared for a variable. Only the
      listed categories get their own type; everything else, `int16` and the
      unsigned types included, is declared as a string. */
  function GoTypeToDQLType(v: Value): (t: string)
    ensures t in WireTypes
    ensures t == "int" <==> v.SignedInt? && v.intKind != GoInt16
    ensures t == "float" <==> v.Float?
    ensures t == "bool" <==> v.Bool?
    ensures t == "datetime" <==> v.Time? || v.TimeRef?
    ensures t == "string" <==> v.Str? || v.UnsignedInt? || v.Nil? || v.Other? || (v.SignedInt? && v.intKind == GoInt16)
  {
    match v
    case Str(_) => "string"
    case SignedInt(k, _) => if k == GoInt16 then "string" else "int"
    case Float(_, _) => "float"
    case Bool(_) => "bool"
    case Time(_) => "datetime"
    case TimeRef(_) => "datetime"
    case _ => "string"
  }

  /** The two foreign formatters: `fmt.Sprintf("%v", v)` and
      `Format(time.RFC3339)`. */
  datatype Formatter = Formatter(show: Value -> string, rfc3339: Instant -> string)

  /** The `time.RFC3339` layout has no fractional seconds: formatting sees the
      instant cut to the whole second. */
  function WholeSecond(t: Instant): Instant
  {
    t.(nanos := 0)
  }

  /** `toVariableValue`: time values, by value or by pointer, are written in
      RFC 3339 form; every other value in its default `%v` form. */
  function ToVariableValue(v: Value, f: Formatter): (s: string)
    ensures v.Time? || v.TimeRef? ==> s == f.rfc3339(WholeSecond(v.t))
    ensures !(v.Time? || v.TimeRef?) ==> s == f.show(v)
  {
    match v
    case Time(t) => f.rfc3339(WholeSecond(t))
    case TimeRef(t) => f.rfc3339(WholeSecond(t))
    case _ => f.show(v)
  }

  /** Two instants in the same second give the same variable value, so the
      sub-second part does not survive the round trip through the wire form. */
  lemma SubSecondDropped(t: Instant, f: Formatter)
    ensures ToVariableValue(Time(t), f) == ToVariableValue(Time(t.(nanos := 0)), f)
    ensures ToVariableValue(TimeRef(t), f) == ToVariableValue(Time(t), f)
  {
  }

  /** Below any member there is a least member. */
  lemma {:induction false} MinExists(s: set<nat>, x: nat)
    requires x in s
    ensures exists k :: k in s && forall j :: j in s ==> k <= j
    decreases x
  {
    if !(forall j :: j in s ==> x <= j) {
      var y :| y in s && y < x;
      MinExists(s, y);
    }
  }

  function MinKey(s: set<nat>): (k: nat)
    requires s != {}
    ensures k in s && forall j :: j in s ==> k <= j
  {
    var x :| x in s;
    MinExists(s, x);
    var k :| k in s && forall j :: j in s ==> k <= j;
    k
  }

  /** The keys of a variable map in ascending order (`getSortedVariables`). */
  function SortedKeys(s: set<nat>): seq<nat>
    decreases |s|
  {
    if s == {} then []
    else
      var m := MinKey(s);
      [m] + SortedKeys(s - {m})
  }

  /** Every key of the set appears, and nothing else. */
  lemma {:induction false} SortedKeysMembers(s: set<nat>)
    ensures |SortedKeys(s)| == |s|
    ensures forall i :: 0 <= i < |SortedKeys(s)| ==> SortedKeys(s)[i] in s
    ensures forall k :: k in s ==> k in SortedKeys(s)
    decreases |s|
  {
    if s != {} {
      var m := MinKey(s);
      var rest := s - {m};
      SortedKeysMembers(rest);
      var t, r := SortedKeys(rest), SortedKeys(s);
      assert r == [m] + t;
      assert |rest| == |s| - 1;
      forall i | 0 <= i < |r| ensures r[i] in s {
        if i > 0 { assert r[i] == t[i - 1]; }
      }
      forall k | k in s ensures k in r {
        if k != m { assert k in t; }
      }
    }
  }

  /** The keys come out in strictly ascending order. */
  lemma {:induction false} SortedKeysAscending(s: set<nat>)
    ensures forall i, j :: 0 <= i < j < |SortedKeys(s)| ==> SortedKeys(s)[i] < SortedKeys(s)[j]
    decreases |s|
  {
    if s != {} {
      var m := MinKey(s);
      var rest := s - {m};
      SortedKeysAscending(rest);
      SortedKeysMembers(rest);
      var t, r := SortedKeys(rest), SortedKeys(s);
      assert r == [m] + t;
      forall j | 0 <= j < |t| ensures m < t[j] {
        assert t[j] in rest;
      }
      forall i, j | 0 <= i < j < |r| ensures r[i] < r[j] {
        assert r[j] == t[j - 1];
        if i > 0 { assert r[i] == t[i - 1]; }
      }
    }
  }

  /** The set holds exactly the keys 0..n-1. */
  ghost predicate IsRange(s: set<nat>, n: nat)
  {
    forall k: nat :: k in s <==> k < n
  }

  lemma {:induction false} RangeSize(s: set<nat>, n: nat)
    requires IsRange(s, n)
    ensures |s| == n
    decreases n
  {
    if n > 0 {
      assert n - 1 in s;
      RangeSize(s - {n - 1}, n - 1);
    } else {
      assert s == {};
    }
  }

  /** Ascending, below n and n of them: the keys 0..n-1 in order. */
  lemma {:induction false} IncreasingBelow(r: seq<nat>, n: nat, i: nat)
    requires |r| == n && i < n
    requires forall a, b :: 0 <= a < b < |r| ==> r[a] < r[b]
    requires forall a :: 0 <= a < |r| ==> r[a] < n
    ensures r[i] == i
  {
    LowerBound(r, i);
    UpperBound(r, n, i);
  }

  lemma {:induction false} LowerBound(r: seq<nat>, i: nat)
    requires i < |r|
    requires forall a, b :: 0 <= a < b < |r| ==> r[a] < r[b]
    ensures r[i] >= i
    decreases i
  {
    if i > 0 {
      LowerBound(r, i - 1);
      assert r[i - 1] < r[i];
    }
  }

  lemma {:induction false} UpperBound(r: seq<nat>, n: nat, i: nat)
    requires i < |r| == n
    requires forall a, b :: 0 <= a < b < |r| ==> r[a] < r[b]
    requires forall a :: 0 <= a < |r| ==> r[a] < n
    ensures r[i] <= i
    decreases n - i
  {
    if i < n - 1 {
      UpperBound(r, n, i + 1);
      assert r[i] < r[i + 1];
    }
  }

  /** The keys 0..n-1 come out of the sort as 0, 1, ..., n-1. */
  lemma SortedRange(s: set<nat>, n: nat)
    requires IsRange(s, n)
    ensures |SortedKeys(s)| == n
    ensures forall i :: 0 <= i < n ==> SortedKeys(s)[i] == i
  {
    RangeSize(s, n);
    SortedKeysMembers(s);
    SortedKeysAscending(s);
    var r := SortedKeys(s);
    forall a | 0 <= a < |r| ensures r[a] < n {
      assert r[a] in s;
    }
    forall i | 0 <= i < n ensures r[i] == i {
      IncreasingBelow(r, n, i);
    }
  }

  /** `fmt.Sprintf("$%d", k)`. */
  function VarName(k: nat): string
  {
    "$" + Dec(k)
  }

  lemma VarNameInjective(a: nat, b: nat)
    ensures VarName(a) == VarName(b) <==> a == b
  {
    if VarName(a) == VarName(b) {
      assert Dec(a) == VarName(a)[1..] == VarName(b)[1..] == Dec(b);
      DecInjective(a, b);
    }
  }

  /** `fmt.Sprintf("$%d:%s", k, goTypeToDQLType(v))`. */
  function Declaration(k: nat, v: Value): string
  {
    VarName(k) + ":" + GoTypeToDQLType(v)
  }

  /** A Go map read: a missing key yields the nil interface. */
  function Lookup(raw: map<nat, Value>, k: nat): Value
  {
    if k in raw then raw[k] else Nil
  }

  /** The declaration list: one entry per key, in ascending key order. */
  function Declarations(raw: map<nat, Value>): (d: seq<string>)
  {
    var names := SortedKeys(raw.Keys);
    seq(|names|, i requires 0 <= i < |names| => Declaration(names[i], Lookup(raw, names[i])))
  }

  /** The variable map after the first n rounds of the formatting loop.
      Round i binds the i-th smallest key's name to the value stored under
      the KEY i (the source reads `rawVariables[index]`). */
  function VariableMapUpTo(raw: map<nat, Value>, names: seq<nat>, n: nat, f: Formatter): map<string, string>
    requires n <= |names|
  {
    if n == 0 then map[]
    else VariableMapUpTo(raw, names, n - 1, f)[VarName(names[n - 1]) := ToVariableValue(Lookup(raw, n - 1), f)]
  }

  function VariableMap(raw: map<nat, Value>, f: Formatter): map<string, string>
  {
    var names := SortedKeys(raw.Keys);
    VariableMapUpTo(raw, names, |names|, f)
  }

  /** Round i writes key `$names[i]` and no later round writes it again,
      since the names are distinct. */
  lemma {:induction false} VariableMapUpToAt(raw: map<nat, Value>, names: seq<nat>, n: nat, f: Formatter, i: nat)
    requires i < n <= |names|
    requires forall a, b :: 0 <= a < b < |names| ==> names[a] < names[b]
    ensures VarName(names[i]) in VariableMapUpTo(raw, names, n, f)
    ensures VariableMapUpTo(raw, names, n, f)[VarName(names[i])] == ToVariableValue(Lookup(raw, i), f)
  {
    if i < n - 1 {
      VariableMapUpToAt(raw, names, n - 1, f, i);
      VarNameInjective(names[i], names[n - 1]);
    }
  }

  /** Only the names of the first n keys are in the map. */
  lemma {:induction false} VariableMapUpToKeys(raw: map<nat, Value>, names: seq<nat>, n: nat, f: Formatter, s: string)
    requires n <= |names|
    requires s in VariableMapUpTo(raw, names, n, f)
    ensures exists i :: 0 <= i < n && s == VarName(names[i])
  {
    if s != VarName(names[n - 1]) {
      VariableMapUpToKeys(raw, names, n - 1, f, s);
    }
  }

  /** When the keys are exactly 0..n-1, as `replacePlaceholders` makes them,
      declaration k is `$k:<type of v_k>`. */
  lemma ContiguousDeclarations(raw: map<nat, Value>, n: nat)
    requires IsRange(raw.Keys, n)
    ensures |Declarations(raw)| == n
    ensures forall k :: 0 <= k < n ==> k in raw && Declarations(raw)[k] == Declaration(k, raw[k])
  {
    SortedRange(raw.Keys, n);
  }

  /** When the keys are exactly 0..n-1, `$k` maps to the textual form of
      v_k, and nothing else is in the map. */
  lemma ContiguousVariableMap(raw: map<nat, Value>, n: nat, f: Formatter)
    requires IsRange(raw.Keys, n)
    ensures forall k :: 0 <= k < n ==> k in raw && VarName(k) in VariableMap(raw, f) && VariableMap(raw, f)[VarName(k)] == ToVariableValue(raw[k], f)
    ensures forall s :: s in VariableMap(raw, f) ==> exists k :: 0 <= k < n && s == VarName(k)
  {
    SortedRange(raw.Keys, n);
    SortedKeysAscending(raw.Keys);
    var names := SortedKeys(raw.Keys);
    forall k | 0 <= k < n
      ensures VarName(k) in VariableMap(raw, f) && VariableMap(raw, f)[VarName(k)] == ToVariableValue(raw[k], f)
    {
      VariableMapUpToAt(raw, names, n, f, k);
    }
    forall s | s in VariableMap(raw, f) ensures exists k :: 0 <= k < n && s == VarName(k) {
      VariableMapUpToKeys(raw, names, n, f, s);
    }
  }

  /** The map is filled by position, not by key: with the single key 1 the
      value printed for `$1` is the one stored under key 0 (none: nil). */
  lemma PositionalRead(v: Value, f: Formatter)
    ensures VariableMap(map[1 := v], f) == map["$1" := f.show(Nil)]
    ensures Declarations(map[1 := v]) == ["$1:" + GoTypeToDQLType(v)]
  {
    var raw := map[1 := v];
    assert raw.Keys == {1};
    assert MinKey({1}) == 1;
    assert SortedKeys({1} - {1}) == [];
    var names := SortedKeys(raw.Keys);
    assert names == [1];
    assert Dec(1) == "1" && VarName(1) == "$1";
    assert Lookup(raw, 0) == Nil && Lookup(raw, 1) == v;
    assert VariableMapUpTo(raw, names, 1, f) == map[][VarName(1) := ToVariableValue(Nil, f)];
    assert |Declarations(raw)| == 1 && Declarations(raw)[0] == Declaration(1, v);
    assert Declaration(1, v) == "$1:" + GoTypeToDQLType(v);
  }

  /** `toVariables`: fills the declaration slice by position and the
      variable map by name, walking the keys in ascending order. */
  method ToVariables(raw: map<nat, Value>, f: Formatter)
    returns (variables: map<string, string>, placeholders: seq<string>)
    ensures variables == VariableMap(raw, f)
    ensures placeholders == Declarations(raw)
  {
    var names := SortedKeys(raw.Keys);
    ghost var decls := Declarations(raw);
    variables := map[];
    var slots := new string[|names|];
    for index := 0 to |names|
      invariant variables == VariableMapUpTo(raw, names, index, f)
      invariant forall i :: 0 <= i < index ==> slots[i] == decls[i]
    {
      var placeholderName := names[index];
      variables := variables[VarName(placeholderName) := ToVariableValue(Lookup(raw, index), f)];
      slots[index] := Declaration(placeholderName, Lookup(raw, placeholderName));
    }
    placeholders := slots[..];
  }
}
