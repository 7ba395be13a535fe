/** Order-preserving filtering and first-match lookup over table rows. */
module Sequences {
  import opened Wrappers

  /** The elements of `s` that satisfy `p`, in their original order (a SQL WHERE
      clause over a table scanned in rowid order, or a JS `filter`). */
  function Filter<T>(s: seq<T>, p: T -> bool): (r: seq<T>)
    ensures |r| <= |s|
    ensures forall i :: 0 <= i < |r| ==> r[i] in s && p(r[i])
    ensures forall i :: 0 <= i < |s| && p(s[i]) ==> s[i] in r
    ensures multiset(r) <= multiset(s)
    decreases |s|
  {
    if s == [] then []
    else if p(s[0]) then assert s == [s[0]] + s[1..]; [s[0]] + Filter(s[1..], p)
    else assert s == [s[0]] + s[1..]; Filter(s[1..], p)
  }

  /** A filter that keeps nothing is empty. */
  lemma FilterNoneKept<T>(s: seq<T>, p: T -> bool)
    requires forall i :: 0 <= i < |s| ==> !p(s[i])
    ensures Filter(s, p) == []
  {
    var r := Filter(s, p);
    if r != [] {
      var k :| 0 <= k < |s| && s[k] == r[0];
    }
  }

  /** A filter that keeps everything is the identity. */
  lemma {:induction false} FilterAllKept<T>(s: seq<T>, p: T -> bool)
    requires forall i :: 0 <= i < |s| ==> p(s[i])
    ensures Filter(s, p) == s
    decreases |s|
  {
    if s != [] {
      assert p(s[0]);
      FilterAllKept(s[1..], p);
      assert s == [s[0]] + s[1..];
    }
  }

  /** Filtering a sequence extended by one element extends the filtered sequence
      by that element exactly when it is kept. */
  lemma {:induction false} FilterSnoc<T>(s: seq<T>, x: T, p: T -> bool)
    ensures Filter(s + [x], p) == Filter(s, p) + (if p(x) then [x] else [])
    decreases |s|
  {
    if s == [] {
      assert [] + [x] == [x];
    } else {
      assert (s + [x])[0] == s[0];
      assert (s + [x])[1..] == s[1..] + [x];
      FilterSnoc(s[1..], x, p);
    }
  }

  /** A kept element occurs as often after filtering as before. */
  lemma {:induction false} FilterCountsKept<T>(s: seq<T>, p: T -> bool, x: T)
    requires p(x)
    ensures multiset(Filter(s, p))[x] == multiset(s)[x]
    decreases |s|
  {
    if s != [] {
      FilterCountsKept(s[1..], p, x);
      assert s == [s[0]] + s[1..];
      assert multiset(s) == multiset([s[0]]) + multiset(s[1..]);
      if p(s[0]) {
        assert multiset(Filter(s, p)) == multiset([s[0]]) + multiset(Filter(s[1..], p));
      }
    }
  }

  /** Two predicates that agree on every element of `s` filter it alike. */
  lemma {:induction false} FilterCongruent<T>(s: seq<T>, p: T -> bool, q: T -> bool)
    requires forall i :: 0 <= i < |s| ==> p(s[i]) == q(s[i])
    ensures Filter(s, p) == Filter(s, q)
    decreases |s|
  {
    if s != [] {
      assert p(s[0]) == q(s[0]);
      assert forall i :: 0 <= i < |s[1..]| ==> s[1..][i] == s[i + 1];
      FilterCongruent(s[1..], p, q);
    }
  }

  /** Filtering by a predicate that is the disjoint union of two others
      splits the kept elements between them, with nothing lost or repeated. */
  lemma {:induction false} FilterDisjointUnion<T>(s: seq<T>, p: T -> bool, q: T -> bool, pq: T -> bool)
    requires forall i :: 0 <= i < |s| ==> pq(s[i]) == (p(s[i]) || q(s[i]))
    requires forall i :: 0 <= i < |s| ==> !(p(s[i]) && q(s[i]))
    ensures multiset(Filter(s, pq)) == multiset(Filter(s, p)) + multiset(Filter(s, q))
    decreases |s|
  {
    if s != [] {
      assert forall i :: 0 <= i < |s[1..]| ==> s[1..][i] == s[i + 1];
      FilterDisjointUnion(s[1..], p, q, pq);
    }
  }

  /** The values `f` yields on the elements of `s`, in order, skipping the
      elements it yields nothing for (an inner join scanned in rowid order). */
  function FilterMap<T, U>(s: seq<T>, f: T -> Option<U>): (r: seq<U>)
    ensures |r| <= |s|
    decreases |s|
  {
    if s == [] then []
    else
      match f(s[0])
      case Some(u) => [u] + FilterMap(s[1..], f)
      case None => FilterMap(s[1..], f)
  }

  /** A value is in the result exactly when some element yields it. */
  lemma {:induction false} FilterMapMembers<T, U>(s: seq<T>, f: T -> Option<U>, u: U)
    ensures u in FilterMap(s, f) <==> exists k :: 0 <= k < |s| && f(s[k]) == Some(u)
    decreases |s|
  {
    if s != [] {
      var tail := s[1..];
      FilterMapMembers(tail, f, u);
      assert FilterMap(s, f) == (if f(s[0]).Some? then [f(s[0]).value] else []) + FilterMap(tail, f);
      assert forall k :: 0 <= k < |tail| ==> tail[k] == s[k + 1];
      assert forall k :: 0 < k < |s| ==> s[k] == tail[k - 1];
    }
  }

  /** Ids strictly increase along `s` and all lie in 1..top: the shape of a table
      whose INTEGER PRIMARY KEY AUTOINCREMENT has handed out ids up to `top`. */
  ghost predicate Keyed<T>(s: seq<T>, idOf: T -> int, top: int) {
    && (forall i, j :: 0 <= i < j < |s| ==> idOf(s[i]) < idOf(s[j]))
    && (forall i :: 0 <= i < |s| ==> 1 <= idOf(s[i]) <= top)
  }

  /** Ids strictly increase along `s` (ORDER BY id on a table scanned in rowid order). */
  ghost predicate IdsIncreasing<T>(s: seq<T>, idOf: T -> int) {
    forall i, j :: 0 <= i < j < |s| ==> idOf(s[i]) < idOf(s[j])
  }

  /** An element whose id is below every id of an increasing sequence can go in front of it. */
  lemma PrependIncreasing<T>(x: T, s: seq<T>, idOf: T -> int)
    requires IdsIncreasing(s, idOf)
    requires forall m :: 0 <= m < |s| ==> idOf(x) < idOf(s[m])
    ensures IdsIncreasing([x] + s, idOf)
  {
    var r := [x] + s;
    forall i, j | 0 <= i < j < |r| ensures idOf(r[i]) < idOf(r[j]) {
      assert r[j] == s[j - 1];
      if i > 0 {
        assert r[i] == s[i - 1];
      }
    }
  }

  /** Filtering keeps ids increasing. */
  lemma {:induction false} FilterKeepsIncreasing<T>(s: seq<T>, p: T -> bool, idOf: T -> int)
    ensures IdsIncreasing(s, idOf) ==> IdsIncreasing(Filter(s, p), idOf)
    decreases |s|
  {
    if s != [] && IdsIncreasing(s, idOf) {
      var t := s[1..];
      assert IdsIncreasing(t, idOf) by {
        forall i, j | 0 <= i < j < |t| ensures idOf(t[i]) < idOf(t[j]) {
          assert t[i] == s[i + 1] && t[j] == s[j + 1];
        }
      }
      FilterKeepsIncreasing(t, p, idOf);
      if p(s[0]) {
        var rest := Filter(t, p);
        assert forall m :: 0 <= m < |rest| ==> idOf(s[0]) < idOf(rest[m]) by {
          forall m | 0 <= m < |rest| ensures idOf(s[0]) < idOf(rest[m]) {
            var k :| 0 <= k < |t| && t[k] == rest[m];
            assert t[k] == s[k + 1];
          }
        }
        PrependIncreasing(s[0], rest, idOf);
      }
    }
  }

  /** Removing elements from a keyed table keeps it keyed. */
  lemma FilterKeepsKeyed<T>(s: seq<T>, p: T -> bool, idOf: T -> int, top: int)
    requires Keyed(s, idOf, top)
    ensures Keyed(Filter(s, p), idOf, top)
  {
    FilterKeepsIncreasing(s, p, idOf);
    var r := Filter(s, p);
    forall i | 0 <= i < |r| ensures 1 <= idOf(r[i]) <= top {
      var k :| 0 <= k < |s| && s[k] == r[i];
    }
  }

  /** The first element of `s` whose id is `id` (a `db.get` of SELECT ... WHERE id = ?). */
  function FindById<T>(s: seq<T>, idOf: T -> int, id: int): (r: Option<T>)
    ensures r.Some? ==> r.value in s && idOf(r.value) == id
    ensures r.None? <==> forall i :: 0 <= i < |s| ==> idOf(s[i]) != id
    decreases |s|
  {
    if s == [] then None
    else if idOf(s[0]) == id then Some(s[0])
    else FindById(s[1..], idOf, id)
  }

  /** In a table whose ids increase, a lookup by id finds the one row with that id. */
  lemma FindByIdIsUnique<T>(s: seq<T>, idOf: T -> int, x: T)
    requires IdsIncreasing(s, idOf)
    requires x in s
    ensures FindById(s, idOf, idOf(x)) == Some(x)
  {
    var r := FindById(s, idOf, idOf(x));
    var i :| 0 <= i < |s| && s[i] == x;
    assert r.Some?;
    var j :| 0 <= j < |s| && s[j] == r.value;
  }

  /** `UPDATE ... WHERE id = ?`: every element with that id is rewritten by
      `f`, every other element is left as it is. */
  function ReplaceWhere<T>(s: seq<T>, idOf: T -> int, id: int, f: T -> T): (r: seq<T>)
    ensures |r| == |s|
    ensures forall i :: 0 <= i < |r| ==> r[i] == if idOf(s[i]) == id then f(s[i]) else s[i]
  {
    seq(|s|, i requires 0 <= i < |s| => if idOf(s[i]) == id then f(s[i]) else s[i])
  }

  /** An update that keeps ids keeps the table keyed, and the row it found
      is then found rewritten. */
  lemma ReplaceWhereKeepsKeys<T>(s: seq<T>, idOf: T -> int, id: int, f: T -> T, top: int, x: T)
    requires Keyed(s, idOf, top)
    requires forall y :: idOf(f(y)) == idOf(y)
    requires x in s && idOf(x) == id
    ensures Keyed(ReplaceWhere(s, idOf, id, f), idOf, top)
    ensures FindById(ReplaceWhere(s, idOf, id, f), idOf, id) == Some(f(x))
  {
    var r := ReplaceWhere(s, idOf, id, f);
    assert forall i :: 0 <= i < |r| ==> idOf(r[i]) == idOf(s[i]);
    var k :| 0 <= k < |s| && s[k] == x;
    assert r[k] == f(x);
    FindByIdIsUnique(r, idOf, r[k]);
  }

  /** An update whose id no row has leaves the table as it is. */
  lemma ReplaceWhereNoMatch<T>(s: seq<T>, idOf: T -> int, id: int, f: T -> T)
    requires forall i :: 0 <= i < |s| ==> idOf(s[i]) != id
    ensures ReplaceWhere(s, idOf, id, f) == s
  {
  }

  /** Filtering distributes over concatenation. */
  lemma {:induction false} FilterConcat<T>(a: seq<T>, b: seq<T>, p: T -> bool)
    ensures Filter(a + b, p) == Filter(a, p) + Filter(b, p)
    decreases |a|
  {
    if a == [] {
      assert a + b == b;
    } else {
      assert (a + b)[0] == a[0];
      assert (a + b)[1..] == a[1..] + b;
      FilterConcat(a[1..], b, p);
    }
  }

  /** Filtering `a + (b + c)` where only the middle part is kept yields it. */
  lemma KeepMiddle<T>(a: seq<T>, b: seq<T>, c: seq<T>, p: T -> bool)
    requires forall i :: 0 <= i < |a| ==> !p(a[i])
    requires forall i :: 0 <= i < |b| ==> p(b[i])
    requires forall i :: 0 <= i < |c| ==> !p(c[i])
    ensures Filter(a + (b + c), p) == b
  {
    FilterConcat(a, b + c, p);
    FilterConcat(b, c, p);
    FilterNoneKept(a, p);
    FilterAllKept(b, p);
    FilterNoneKept(c, p);
  }

  /** `a` is `b` with some elements left out, the rest in their order. */
  ghost predicate IsSubsequence<T>(a: seq<T>, b: seq<T>)
    decreases |b|
  {
    if a == [] then true
    else if b == [] then false
    else (a[0] == b[0] && IsSubsequence(a[1..], b[1..])) || IsSubsequence(a, b[1..])
  }

  /** Filtering only leaves elements out: what it keeps stays in order. */
  lemma {:induction false} FilterIsSubsequence<T>(s: seq<T>, p: T -> bool)
    ensures IsSubsequence(Filter(s, p), s)
    decreases |s|
  {
    if s != [] {
      FilterIsSubsequence(s[1..], p);
    }
  }

  /** Appending rows that carry the next ids in turn keeps a table keyed. */
  lemma AppendKeyed<T>(s: seq<T>, more: seq<T>, idOf: T -> int, top: int)
    requires Keyed(s, idOf, top) && top >= 0
    requires forall i :: 0 <= i < |more| ==> idOf(more[i]) == top + 1 + i
    ensures Keyed(s + more, idOf, top + |more|)
  {
    var r := s + more;
    forall i, j | 0 <= i < j < |r| ensures idOf(r[i]) < idOf(r[j]) {
      if j >= |s| {
        assert r[j] == more[j - |s|];
        if i >= |s| {
          assert r[i] == more[i - |s|];
        } else {
          assert r[i] == s[i];
        }
      } else {
        assert r[i] == s[i] && r[j] == s[j];
      }
    }
    forall i | 0 <= i < |r| ensures 1 <= idOf(r[i]) <= top + |more| {
      if i >= |s| {
        assert r[i] == more[i - |s|];
      } else {
        assert r[i] == s[i];
      }
    }
  }

  /** Keyed tables have increasing ids. */
  lemma KeyedIncreasing<T>(s: seq<T>, idOf: T -> int, top: int)
    requires Keyed(s, idOf, top)
    ensures IdsIncreasing(s, idOf)
  {
  }
}
