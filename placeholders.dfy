/** The placeholder pass of the variable table builder (`replacePlaceholders`,
    query_operation.go): every `??` marker, scanned left to right, is replaced
    by a named reference and its argument is recorded under its index. */
module Placeholders {
  import opened Base

  /** A `??` marker starts at position `p` of `s`. */
  predicate MarkerAt(s: string, p: int)
  {
    0 <= p && p + 1 < |s| && s[p] == '?' && s[p + 1] == '?'
  }

  predicate HasMarker(s: string)
  {
    exists p :: 0 <= p < |s| && MarkerAt(s, p)
  }

  /** `strings.Index(s, "??")`: the leftmost marker, or -1. */
  function FindMarker(s: string): (p: int)
    ensures p == -1 || MarkerAt(s, p)
    decreases |s|
  {
    if |s| < 2 then -1
    else if s[0] == '?' && s[1] == '?' then 0
    else
      var p := FindMarker(s[1..]);
      if p == -1 then -1 else p + 1
  }

  /** The position found is the leftmost marker, and -1 means there is none. */
  lemma {:induction false} FindMarkerLeftmost(s: string)
    ensures FindMarker(s) == -1 <==> !HasMarker(s)
    ensures forall q :: 0 <= q < FindMarker(s) ==> !MarkerAt(s, q)
    decreases |s|
  {
    if |s| >= 2 && !(s[0] == '?' && s[1] == '?') {
      FindMarkerLeftmost(s[1..]);
      assert forall q :: 0 < q ==> (MarkerAt(s, q) <==> MarkerAt(s[1..], q - 1));
    }
  }

  lemma FindMarkerIs(s: string, p: int)
    requires MarkerAt(s, p)
    requires forall q :: 0 <= q < p ==> !MarkerAt(s, q)
    ensures FindMarker(s) == p
  {
    FindMarkerLeftmost(s);
  }

  lemma FindNoMarker(s: string)
    requires forall q :: 0 <= q < |s| ==> !MarkerAt(s, q)
    ensures FindMarker(s) == -1
  {
    FindMarkerLeftmost(s);
  }

  /** The text between successive markers: the query is cut at its leftmost
      marker and the scan resumes after that marker. */
  function Split(q: string): (segs: seq<string>)
    ensures |segs| >= 1
    decreases |q|
  {
    var p := FindMarker(q);
    if p == -1 then [q] else [q[..p]] + Split(q[p + 2..])
  }

  /** The number of markers `replacePlaceholders` replaces. */
  function MarkerCount(q: string): nat
  {
    |Split(q)| - 1
  }

  /** The segments with `keys[i]` written between segment i and segment i + 1. */
  function Fill(segs: seq<string>, keys: seq<string>): string
    requires |keys| + 1 == |segs|
    decreases |segs|
  {
    if |segs| == 1 then segs[0] else segs[0] + keys[0] + Fill(segs[1..], keys[1..])
  }

  /** The references written for the first n markers. */
  function Keys(n: nat, args: seq<Value>, transform: (nat, Value) -> string): (keys: seq<string>)
    requires n <= |args|
  {
    seq(n, i requires 0 <= i < n => transform(i, args[i]))
  }

  /** The variables recorded for the first n markers. */
  function Bindings(n: nat, args: seq<Value>): (m: map<nat, Value>)
    requires n <= |args|
  {
    map i | 0 <= i < n :: args[i]
  }

  function Markers(n: nat): seq<string>
  {
    seq(n, i => "??")
  }

  lemma MarkersTail(n: nat)
    requires n > 0
    ensures Markers(n)[0] == "??" && Markers(n)[1..] == Markers(n - 1)
  {
  }

  /** One marker written back in front of a round-tripped rest. */
  lemma SplitRoundTripStep(q: string, p: int)
    requires p == FindMarker(q) && p != -1
    requires Fill(Split(q[p + 2..]), Markers(MarkerCount(q[p + 2..]))) == q[p + 2..]
    ensures Fill(Split(q), Markers(MarkerCount(q))) == q
  {
    var rest := q[p + 2..];
    var segs, ms := Split(q), Markers(MarkerCount(q));
    assert segs == [q[..p]] + Split(rest);
    MarkersTail(MarkerCount(q));
    calc {
      Fill(segs, ms);
      segs[0] + ms[0] + Fill(segs[1..], ms[1..]);
      { assert segs[1..] == Split(rest) && ms[1..] == Markers(MarkerCount(rest)); }
      q[..p] + "??" + rest;
      { assert MarkerAt(q, p); }
      q;
    }
  }

  /** Writing the markers back between the segments gives the query again. */
  lemma {:induction false} SplitRoundTrip(q: string)
    ensures Fill(Split(q), Markers(MarkerCount(q))) == q
    decreases |q|
  {
    var p := FindMarker(q);
    if p == -1 {
      assert Split(q) == [q];
      assert Markers(0) == [];
    } else {
      SplitRoundTrip(q[p + 2..]);
      SplitRoundTripStep(q, p);
    }
  }

  /** No segment holds a marker, and no segment before a marker ends in `?`
      (the cut is at the LEFTMOST marker). */
  lemma {:induction false} SplitSegments(q: string)
    ensures forall k :: 0 <= k < |Split(q)| - 1 ==> !HasMarker(Split(q)[k] + "?")
    ensures !HasMarker(Split(q)[|Split(q)| - 1])
    decreases |q|
  {
    var p := FindMarker(q);
    FindMarkerLeftmost(q);
    if p != -1 {
      SplitSegments(q[p + 2..]);
      var seg := q[..p];
      forall r | MarkerAt(seg + "?", r) ensures false {
        assert MarkerAt(q, r);
      }
    }
  }

  /** A query without markers is a single segment. */
  lemma NoMarkerOneSegment(q: string)
    ensures MarkerCount(q) == 0 <==> !HasMarker(q)
    ensures !HasMarker(q) ==> Split(q) == [q]
  {
    FindMarkerLeftmost(q);
  }

  /** A marker inside `a` is still the leftmost one after anything is appended. */
  lemma FindMarkerPrefix(a: string, t: string)
    requires FindMarker(a) != -1
    ensures FindMarker(a + t) == FindMarker(a)
  {
    var s, p := a + t, FindMarker(a);
    FindMarkerLeftmost(a);
    forall q | 0 <= q < p ensures !MarkerAt(s, q) {
      assert MarkerAt(s, q) == MarkerAt(a, q);
    }
    assert MarkerAt(s, p);
    FindMarkerIs(s, p);
  }

  /** After a marker-free `a` and a character that is not `?`, the leftmost
      marker is the leftmost marker of `b`. */
  lemma FindMarkerAfter(a: string, c: char, b: string)
    requires FindMarker(a) == -1 && c != '?'
    ensures FindMarker(a + [c] + b) == if FindMarker(b) == -1 then -1 else |a| + 1 + FindMarker(b)
  {
    var s, o := a + [c] + b, |a| + 1;
    FindMarkerLeftmost(a);
    FindMarkerLeftmost(b);
    forall q | 0 <= q < o ensures !MarkerAt(s, q) {
      if q + 1 < |a| { assert MarkerAt(s, q) == MarkerAt(a, q); }
    }
    var pb := FindMarker(b);
    if pb == -1 {
      forall q | o <= q < |s| ensures !MarkerAt(s, q) {
        assert !MarkerAt(b, q - o);
      }
      FindNoMarker(s);
    } else {
      forall q | o <= q < o + pb ensures !MarkerAt(s, q) {
        assert !MarkerAt(b, q - o);
      }
      assert MarkerAt(b, pb);
      FindMarkerIs(s, o + pb);
    }
  }

  /** Markers never straddle a character that is not `?`: the count over
      `a + [c] + b` is the sum of the counts. */
  lemma {:induction false} MarkerCountConcat(a: string, c: char, b: string)
    requires c != '?'
    ensures MarkerCount(a + [c] + b) == MarkerCount(a) + MarkerCount(b)
    decreases |a|
  {
    var s := a + [c] + b;
    var p := FindMarker(a);
    if p != -1 {
      assert s == a + ([c] + b);
      FindMarkerPrefix(a, [c] + b);
      var rest := a[p + 2..];
      assert s[p + 2..] == rest + [c] + b;
      assert Split(s) == [s[..p]] + Split(rest + [c] + b);
      assert Split(a) == [a[..p]] + Split(rest);
      MarkerCountConcat(rest, c, b);
    } else {
      FindMarkerAfter(a, c, b);
      assert |Split(a)| == 1;
      var pb := FindMarker(b);
      if pb != -1 {
        var o := |a| + 1 + pb;
        assert FindMarker(s) == o;
        var tail := s[o + 2..];
        assert tail == b[pb + 2..];
        assert Split(s) == [s[..o]] + Split(tail);
        assert |Split(b)| == 1 + |Split(b[pb + 2..])|;
      }
    }
  }

  /** The output written before segment i: each earlier segment followed by
      its reference. */
  function FillPrefix(segs: seq<string>, keys: seq<string>, i: nat): string
    requires i <= |keys| && i <= |segs|
  {
    if i == 0 then "" else FillPrefix(segs, keys, i - 1) + segs[i - 1] + keys[i - 1]
  }

  lemma {:induction false} FillSplitAt(segs: seq<string>, keys: seq<string>, i: nat)
    requires |keys| + 1 == |segs| && i <= |keys|
    ensures Fill(segs, keys) == FillPrefix(segs, keys, i) + Fill(segs[i..], keys[i..])
    decreases i
  {
    if i > 0 {
      FillSplitAt(segs, keys, i - 1);
      var tail, ktail := segs[i - 1..], keys[i - 1..];
      assert tail[1..] == segs[i..] && ktail[1..] == keys[i..];
      assert Fill(tail, ktail) == segs[i - 1] + keys[i - 1] + Fill(segs[i..], keys[i..]);
      var pre := FillPrefix(segs, keys, i - 1);
      assert pre + (segs[i - 1] + keys[i - 1] + Fill(segs[i..], keys[i..]))
          == (pre + segs[i - 1] + keys[i - 1]) + Fill(segs[i..], keys[i..]);
    }
  }

  lemma BindingsStep(i: nat, args: seq<Value>)
    requires i < |args|
    ensures Bindings(i, args)[i := args[i]] == Bindings(i + 1, args)
  {
  }

  /** `replacePlaceholders`: the i-th marker becomes `transform(i, args[i])`,
      the text between markers is copied, and index i is bound to `args[i]`.
      The source indexes `args` without a check, so the markers must not
      outnumber the arguments. */
  method ReplacePlaceholders(query: string, args: seq<Value>, transform: (nat, Value) -> string)
    returns (text: string, variables: map<nat, Value>)
    requires MarkerCount(query) <= |args|
    ensures text == Fill(Split(query), Keys(MarkerCount(query), args, transform))
    ensures variables == Bindings(MarkerCount(query), args)
    ensures !HasMarker(query) ==> text == query && variables == map[]
  {
    ghost var n := MarkerCount(query);
    ghost var segs := Split(query);
    ghost var keys := Keys(n, args, transform);
    variables := map[];
    var buf := "";
    var rest := query;
    var i := 0;
    var p := FindMarker(rest);
    while p != -1
      invariant 0 <= i <= n
      invariant p == FindMarker(rest)
      invariant Split(rest) == segs[i..]
      invariant buf == FillPrefix(segs, keys, i)
      invariant variables == Bindings(i, args)
      decreases |rest|
    {
      assert segs[i] == rest[..p] && i < n;
      buf := buf + rest[..p];
      var key := transform(i, args[i]);
      buf := buf + key;
      ghost var before := rest;
      rest := rest[p + 2..];
      assert Split(rest) == Split(before)[1..];
      BindingsStep(i, args);
      variables := variables[i := args[i]];
      i := i + 1;
      p := FindMarker(rest);
    }
    assert i == n && segs[n] == rest;
    FillSplitAt(segs, keys, n);
    buf := buf + rest;
    text := buf;
    NoMarkerOneSegment(query);
  }
}
