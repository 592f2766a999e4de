/** `ensureUniqueQueryNames` (query_operation.go): a query whose root name
    was already used by an earlier (possibly renamed) query is renamed to
    `<name>_<index>`. */
module Names {
  import opened Base
  import opened Text

  /** The root names of a list of queries. */
  function NamesOf(qs: seq<QueryBuilder>): set<string>
  {
    set i | 0 <= i < |qs| :: qs[i].rootEdge.name
  }

  /** The name given to a clashing query at position `index`. */
  function Suffixed(name: string, index: nat): string
  {
    name + "_" + Dec(index)
  }

  /** The queries after renaming, built from the end: the last query is
      checked against the names the earlier ones ended up with. */
  function Uniquify(qs: seq<QueryBuilder>): (r: seq<QueryBuilder>)
    ensures |r| == |qs|
    decreases |qs|
  {
    if qs == [] then []
    else
      var prev := Uniquify(qs[..|qs| - 1]);
      var i := |qs| - 1;
      var q := qs[i];
      prev + [if q.rootEdge.name in NamesOf(prev) then q.WithName(Suffixed(q.rootEdge.name, i)) else q]
  }

  lemma NamesOfSnoc(qs: seq<QueryBuilder>, q: QueryBuilder)
    ensures NamesOf(qs + [q]) == NamesOf(qs) + {q.rootEdge.name}
  {
    var s := qs + [q];
    forall x | x in NamesOf(s) ensures x in NamesOf(qs) + {q.rootEdge.name} {
      var i :| 0 <= i < |s| && s[i].rootEdge.name == x;
      if i < |qs| { assert qs[i] == s[i]; }
    }
    forall x | x in NamesOf(qs) ensures x in NamesOf(s) {
      var i :| 0 <= i < |qs| && qs[i].rootEdge.name == x;
      assert s[i] == qs[i];
    }
    assert s[|qs|] == q;
  }

  /** Renaming never looks ahead: a prefix is renamed as it would be alone. */
  lemma {:induction false} UniquifyPrefix(qs: seq<QueryBuilder>, k: nat)
    requires k <= |qs|
    ensures Uniquify(qs)[..k] == Uniquify(qs[..k])
    decreases |qs| - k
  {
    if k < |qs| {
      var init := qs[..|qs| - 1];
      UniquifyPrefix(init, k);
      assert init[..k] == qs[..k];
      assert Uniquify(qs)[..|qs| - 1] == Uniquify(init);
      assert Uniquify(qs)[..k] == Uniquify(qs)[..|qs| - 1][..k];
    } else {
      assert qs[..k] == qs;
    }
  }

  /** Query i is renamed exactly when its name is among the names the
      queries before it ended up with. */
  lemma UniquifyAt(qs: seq<QueryBuilder>, i: nat)
    requires i < |qs|
    ensures Uniquify(qs)[i] ==
      if qs[i].rootEdge.name in NamesOf(Uniquify(qs)[..i]) then qs[i].WithName(Suffixed(qs[i].rootEdge.name, i)) else qs[i]
  {
    UniquifyPrefix(qs, i + 1);
    UniquifyPrefix(qs, i);
    var pre := qs[..i + 1];
    assert pre[..i] == qs[..i] && pre[i] == qs[i];
    assert Uniquify(qs)[i] == Uniquify(qs)[..i + 1][i];
    assert Uniquify(qs)[..i] == Uniquify(qs)[..i + 1][..i];
  }

  /** Only the root name changes, and it changes only by the suffix
      `_<position>`; the root's compilation, the variable blocks and the
      decode destination are kept. */
  lemma UniquifyKeeps(qs: seq<QueryBuilder>, i: nat)
    requires i < |qs|
    ensures var r := Uniquify(qs)[i];
      r.rootEdge.compile == qs[i].rootEdge.compile && r.variables == qs[i].variables &&
      r.unmarshalInto == qs[i].unmarshalInto &&
      (r.rootEdge.name == qs[i].rootEdge.name || r.rootEdge.name == Suffixed(qs[i].rootEdge.name, i))
  {
    UniquifyAt(qs, i);
  }

  /** The first query is never renamed. */
  lemma UniquifyFirst(qs: seq<QueryBuilder>)
    requires |qs| > 0
    ensures Uniquify(qs)[0] == qs[0]
  {
    UniquifyAt(qs, 0);
    assert NamesOf(Uniquify(qs)[..0]) == {};
  }

  /** Every name seen so far, original or not, is among the names in use:
      a name that occurs earlier in the input is always renamed. */
  lemma UniquifyRenamesRepeats(qs: seq<QueryBuilder>, j: nat, i: nat)
    requires j < i < |qs| && qs[j].rootEdge.name == qs[i].rootEdge.name
    ensures Uniquify(qs)[i] == qs[i].WithName(Suffixed(qs[i].rootEdge.name, i))
  {
    var r := Uniquify(qs);
    var x := qs[j].rootEdge.name;
    UniquifyAt(qs, j);
    if x in NamesOf(r[..j]) {
      var k :| 0 <= k < j && r[..j][k].rootEdge.name == x;
      assert r[..i][k] == r[..j][k];
    } else {
      assert r[..i][j] == r[j];
    }
    UniquifyAt(qs, i);
  }

  /** With no name repeated, nothing is renamed. */
  lemma {:induction false} UniquifyDistinct(qs: seq<QueryBuilder>)
    requires forall a, b :: 0 <= a < b < |qs| ==> qs[a].rootEdge.name != qs[b].rootEdge.name
    ensures Uniquify(qs) == qs
    decreases |qs|
  {
    if qs != [] {
      var init := qs[..|qs| - 1];
      UniquifyDistinct(init);
      var q := qs[|qs| - 1];
      assert q.rootEdge.name !in NamesOf(init) by {
        forall k | 0 <= k < |init| ensures init[k].rootEdge.name != q.rootEdge.name {
          assert qs[k] == init[k];
        }
      }
      assert Uniquify(qs) == init + [q];
      assert init + [q] == qs;
    }
  }

  predicate NoUnderscore(s: string)
  {
    forall k :: 0 <= k < |s| ==> s[k] != '_'
  }

  /** `x_a` determines x and a when neither holds an underscore. */
  lemma SuffixedInjective(x: string, a: nat, y: string, b: nat)
    requires NoUnderscore(x) && NoUnderscore(y)
    requires Suffixed(x, a) == Suffixed(y, b)
    ensures x == y && a == b
  {
    var s := Suffixed(x, a);
    DecDigits(a);
    DecDigits(b);
    assert s[|x|] == '_' && Suffixed(y, b)[|y|] == '_';
    assert x == s[..|x|] && y == Suffixed(y, b)[..|y|];
    assert Dec(a) == s[|x| + 1..] && Dec(b) == Suffixed(y, b)[|y| + 1..];
    DecInjective(a, b);
  }

  /** When no name holds an underscore, the renamed queries have pairwise
      distinct names. */
  lemma UniquifyDistinctNames(qs: seq<QueryBuilder>, a: nat, b: nat)
    requires forall i :: 0 <= i < |qs| ==> NoUnderscore(qs[i].rootEdge.name)
    requires a < b < |qs|
    ensures Uniquify(qs)[a].rootEdge.name != Uniquify(qs)[b].rootEdge.name
  {
    var r := Uniquify(qs);
    var x, y := qs[a].rootEdge.name, qs[b].rootEdge.name;
    UniquifyAt(qs, a);
    UniquifyAt(qs, b);
    DecDigits(a);
    DecDigits(b);
    if r[a].rootEdge.name == r[b].rootEdge.name {
      assert r[..b][a] == r[a];
      assert Suffixed(x, a)[|x|] == '_' && Suffixed(y, b)[|y|] == '_';
      if r[a].rootEdge.name != x && r[b].rootEdge.name != y {
        SuffixedInjective(x, a, y, b);
      }
    }
  }

  /** When no name holds an underscore, the first occurrence of a name is
      never renamed. */
  lemma UniquifyFirstOccurrence(qs: seq<QueryBuilder>, i: nat)
    requires forall k :: 0 <= k < |qs| ==> NoUnderscore(qs[k].rootEdge.name)
    requires i < |qs| && forall j :: 0 <= j < i ==> qs[j].rootEdge.name != qs[i].rootEdge.name
    ensures Uniquify(qs)[i] == qs[i]
  {
    var r := Uniquify(qs);
    var x := qs[i].rootEdge.name;
    UniquifyAt(qs, i);
    forall j | 0 <= j < i ensures r[..i][j].rootEdge.name != x {
      assert r[..i][j] == r[j];
      UniquifyAt(qs, j);
      assert Suffixed(qs[j].rootEdge.name, j)[|qs[j].rootEdge.name|] == '_';
    }
  }

  /** Counterexample to pairwise distinctness in general: `x_2`, `x`, `x`
      becomes `x_2`, `x`, `x_2`. */
  lemma RepeatedNameAfterRenaming(op: Operation, u: Option<Destination>)
    requires op.name == "x"
    ensures var qs := [QueryBuilder(op.(name := "x_2"), [], u), QueryBuilder(op, [], u), QueryBuilder(op, [], u)];
      Uniquify(qs)[0].rootEdge.name == "x_2" && Uniquify(qs)[2].rootEdge.name == "x_2"
  {
    var qs := [QueryBuilder(op.(name := "x_2"), [], u), QueryBuilder(op, [], u), QueryBuilder(op, [], u)];
    UniquifyFirst(qs);
    UniquifyRenamesRepeats(qs, 1, 2);
    assert Dec(2) == "2";
  }

  /** A name that is new in the input can still be renamed: `a`, `a`, `a_1`
      becomes `a`, `a_1`, `a_1_2`. */
  lemma FreshNameRenamed(op: Operation, u: Option<Destination>)
    requires op.name == "a"
    ensures var qs := [QueryBuilder(op, [], u), QueryBuilder(op, [], u), QueryBuilder(op.(name := "a_1"), [], u)];
      Uniquify(qs)[2].rootEdge.name == "a_1_2"
  {
    var qs := [QueryBuilder(op, [], u), QueryBuilder(op, [], u), QueryBuilder(op.(name := "a_1"), [], u)];
    UniquifyRenamesRepeats(qs, 0, 1);
    assert Dec(1) == "1" && Dec(2) == "2";
    var r := Uniquify(qs);
    assert r[1].rootEdge.name == "a_1";
    assert r[..2][1] == r[1];
    assert "a_1" in NamesOf(r[..2]);
    UniquifyAt(qs, 2);
    assert Suffixed("a_1", 2) == "a_1_2";
  }

  lemma UniquifyStep(qs: seq<QueryBuilder>, i: nat)
    requires i < |qs|
    ensures var prev := Uniquify(qs[..i]);
      Uniquify(qs[..i + 1]) == prev + [if qs[i].rootEdge.name in NamesOf(prev) then qs[i].WithName(Suffixed(qs[i].rootEdge.name, i)) else qs[i]]
  {
    assert qs[..i + 1][..i] == qs[..i];
  }

  /** `ensureUniqueQueryNames`: the loop keeps the set of names in use. */
  method EnsureUniqueQueryNames(queries: seq<QueryBuilder>) returns (unique: seq<QueryBuilder>)
    ensures unique == Uniquify(queries)
  {
    var queryNames: set<string> := {};
    var uniqueQueries := new QueryBuilder[|queries|](i requires 0 <= i < |queries| => queries[i]);
    for index := 0 to |queries|
      invariant uniqueQueries[..index] == Uniquify(queries[..index])
      invariant queryNames == NamesOf(uniqueQueries[..index])
    {
      var query := queries[index];
      ghost var prev := uniqueQueries[..index];
      if query.rootEdge.name in queryNames {
        query := query.WithName(Suffixed(query.rootEdge.name, index));
      }
      queryNames := queryNames + {query.rootEdge.name};
      uniqueQueries[index] := query;
      assert uniqueQueries[..index + 1] == prev + [query];
      UniquifyStep(queries, index);
      NamesOfSnoc(prev, query);
    }
    unique := uniqueQueries[..];
    assert queries[..|queries|] == queries;
  }
}
