/** The orders used by the ORDER BY clauses of the routes, and a stable sort
    that realises them. */
module Ordering {
  import opened Sequences

  /** Lexicographic order on texts, character by character. SQLite's default
      BINARY collation compares the UTF-8 bytes, which orders texts exactly as
      their code points do. */
  predicate TextLe(a: string, b: string) {
    a == [] || (b != [] && (a[0] < b[0] || (a[0] == b[0] && TextLe(a[1..], b[1..]))))
  }

  lemma {:induction false} TextLeTotal(a: string, b: string)
    ensures TextLe(a, b) || TextLe(b, a)
  {
    if a != [] && b != [] && a[0] == b[0] {
      TextLeTotal(a[1..], b[1..]);
    }
  }

  lemma {:induction false} TextLeAntisymmetric(a: string, b: string)
    requires TextLe(a, b) && TextLe(b, a)
    ensures a == b
  {
    if a != [] && b != [] {
      TextLeAntisymmetric(a[1..], b[1..]);
      assert a == [a[0]] + a[1..] && b == [b[0]] + b[1..];
    }
  }

  lemma {:induction false} TextLeTransitive(a: string, b: string, c: string)
    requires TextLe(a, b) && TextLe(b, c)
    ensures TextLe(a, c)
  {
    if a != [] && a[0] == b[0] && b[0] == c[0] {
      TextLeTransitive(a[1..], b[1..], c[1..]);
    }
  }

  /** A sort key: a text column first, then a time or number column, as in
      `ORDER BY cat.name, s.timestamp`. */
  datatype Key = Key(text: string, time: int)

  /** Key order: texts first; equal texts are ordered by time. */
  predicate KeyLe(a: Key, b: Key) {
    (a.text != b.text && TextLe(a.text, b.text)) || (a.text == b.text && a.time <= b.time)
  }

  lemma KeyLeTotal(a: Key, b: Key)
    ensures KeyLe(a, b) || KeyLe(b, a)
  {
    TextLeTotal(a.text, b.text);
  }

  lemma KeyLeTransitive(a: Key, b: Key, c: Key)
    requires KeyLe(a, b) && KeyLe(b, c)
    ensures KeyLe(a, c)
  {
    if a.text != b.text && b.text != c.text {
      TextLeTransitive(a.text, b.text, c.text);
      if a.text == c.text {
        TextLeAntisymmetric(a.text, b.text);
      }
    }
  }

  /** `s` is in non-decreasing key order. */
  ghost predicate SortedBy<T>(s: seq<T>, key: T -> Key) {
    forall i, j :: 0 <= i < j < |s| ==> KeyLe(key(s[i]), key(s[j]))
  }

  /** An element at or below every key of a sorted sequence can go in front of it. */
  lemma SortedCons<T>(x: T, s: seq<T>, key: T -> Key)
    requires SortedBy(s, key)
    requires forall m :: 0 <= m < |s| ==> KeyLe(key(x), key(s[m]))
    ensures SortedBy([x] + s, key)
  {
    var r := [x] + s;
    forall i, j | 0 <= i < j < |r| ensures KeyLe(key(r[i]), key(r[j])) {
      assert r[j] == s[j - 1];
      if i > 0 {
        assert r[i] == s[i - 1];
      }
    }
  }

  /** The tail of a sorted sequence is sorted, and its head is at or below all of it. */
  lemma SortedUncons<T>(s: seq<T>, key: T -> Key)
    requires s != [] && SortedBy(s, key)
    ensures SortedBy(s[1..], key)
    ensures forall m :: 0 <= m < |s[1..]| ==> KeyLe(key(s[0]), key(s[1..][m]))
  {
    assert forall m :: 0 <= m < |s[1..]| ==> s[1..][m] == s[m + 1];
  }

  /** `x` inserted into sorted `s` after the elements with smaller keys and
      before the first one with a key at or above its own. */
  function InsertByKey<T>(x: T, s: seq<T>, key: T -> Key): (r: seq<T>)
    requires SortedBy(s, key)
    ensures SortedBy(r, key)
    ensures multiset(r) == multiset(s) + multiset{x}
    decreases |s|
  {
    if s == [] then [x]
    else
      SortedUncons(s, key);
      if KeyLe(key(x), key(s[0])) then
        assert forall m :: 0 <= m < |s| ==> (m == 0 || s[m] == s[1..][m - 1]);
        InsertBelowAll(x, s, key);
        SortedCons(x, s, key);
        [x] + s
      else
        var rest := InsertByKey(x, s[1..], key);
        KeyLeTotal(key(x), key(s[0]));
        HeadBelowInserted(s[0], x, s[1..], rest, key);
        SortedCons(s[0], rest, key);
        assert s == [s[0]] + s[1..];
        [s[0]] + rest
  }

  /** If `x` is at or below the head of sorted `s`, it is at or below all of `s`. */
  lemma InsertBelowAll<T>(x: T, s: seq<T>, key: T -> Key)
    requires s != [] && SortedBy(s, key) && KeyLe(key(x), key(s[0]))
    ensures forall m :: 0 <= m < |s| ==> KeyLe(key(x), key(s[m]))
  {
    forall m | 0 <= m < |s| ensures KeyLe(key(x), key(s[m])) {
      if m > 0 {
        KeyLeTransitive(key(x), key(s[0]), key(s[m]));
      }
    }
  }

  /** The head `h` stays below the result of inserting `x` into the tail. */
  lemma HeadBelowInserted<T>(h: T, x: T, t: seq<T>, rest: seq<T>, key: T -> Key)
    requires KeyLe(key(h), key(x))
    requires forall m :: 0 <= m < |t| ==> KeyLe(key(h), key(t[m]))
    requires multiset(rest) == multiset(t) + multiset{x}
    ensures forall m :: 0 <= m < |rest| ==> KeyLe(key(h), key(rest[m]))
  {
    forall m | 0 <= m < |rest| ensures KeyLe(key(h), key(rest[m])) {
      assert rest[m] in multiset(rest);
      if rest[m] != x {
        assert rest[m] in multiset(t);
        assert rest[m] in t;
        var k :| 0 <= k < |t| && t[k] == rest[m];
      }
    }
  }

  /** A stable insertion sort: the result is a permutation of `s` in key order.
      SQL leaves the order of rows with equal keys unspecified; this model keeps
      them in table order, and no property below depends on that choice. */
  function SortByKey<T>(s: seq<T>, key: T -> Key): (r: seq<T>)
    ensures SortedBy(r, key)
    ensures multiset(r) == multiset(s)
    ensures |r| == |s|
    decreases |s|
  {
    if s == [] then []
    else
      assert s == [s[0]] + s[1..];
      InsertByKey(s[0], SortByKey(s[1..], key), key)
  }

  /** Every element of the sorted result comes from the input, and conversely. */
  lemma SortByKeyMembers<T>(s: seq<T>, key: T -> Key)
    ensures forall i :: 0 <= i < |s| ==> s[i] in SortByKey(s, key)
    ensures forall i :: 0 <= i < |SortByKey(s, key)| ==> SortByKey(s, key)[i] in s
  {
    var r := SortByKey(s, key);
    forall i | 0 <= i < |s| ensures s[i] in r {
      assert s[i] in multiset(s);
    }
    forall i | 0 <= i < |r| ensures r[i] in s {
      assert r[i] in multiset(r);
    }
  }

  /** Sorting the kept elements keeps exactly the elements `p` accepts. */
  lemma SortedFilterMembers<T>(s: seq<T>, p: T -> bool, key: T -> Key)
    ensures forall i :: 0 <= i < |SortByKey(Filter(s, p), key)| ==>
              SortByKey(Filter(s, p), key)[i] in s && p(SortByKey(Filter(s, p), key)[i])
    ensures forall i :: 0 <= i < |s| && p(s[i]) ==> s[i] in SortByKey(Filter(s, p), key)
    ensures multiset(SortByKey(Filter(s, p), key)) <= multiset(s)
  {
    SortByKeyMembers(Filter(s, p), key);
  }

  /** Keeping some rows of a sorted sequence leaves it sorted. */
  lemma {:induction false} FilterKeepsSorted<T>(s: seq<T>, p: T -> bool, key: T -> Key)
    requires SortedBy(s, key)
    ensures SortedBy(Filter(s, p), key)
    decreases |s|
  {
    if s != [] {
      SortedUncons(s, key);
      FilterKeepsSorted(s[1..], p, key);
      if p(s[0]) {
        var rest := Filter(s[1..], p);
        forall m | 0 <= m < |rest| ensures KeyLe(key(s[0]), key(rest[m])) {
          var k :| 0 <= k < |s[1..]| && s[1..][k] == rest[m];
        }
        SortedCons(s[0], rest, key);
      }
    }
  }

  /** In key order, elements with the same text are in non-decreasing time order. */
  lemma SameTextByTime<T>(s: seq<T>, key: T -> Key, i: int, j: int)
    requires SortedBy(s, key)
    requires 0 <= i < j < |s| && key(s[i]).text == key(s[j]).text
    ensures key(s[i]).time <= key(s[j]).time
  {
  }
}
