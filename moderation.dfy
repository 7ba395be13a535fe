/** The moderation side of the submission ledger (server/routes/submissions.js):
    the pending listing with its join and ordering, its grouping into buckets
    keyed by category name, and the status update. */
module Moderation {
  import opened Wrappers
  import opened Sequences
  import opened Ordering
  import opened Schema

  /** One row of GET /submissions/pending. */
  datatype PendingRow = PendingRow(id: int, userName: string, timestamp: Timestamp, status: Status,
                                   cardDescription: string, categoryName: string, categoryId: int)

  function PendingRowOf(s: Submission, c: Card, cat: Category): PendingRow {
    PendingRow(s.id, s.userName, s.timestamp, s.status, c.textDescription, cat.name, cat.id)
  }

  /** The row the inner joins and the WHERE clause build from `s`: it must be
      pending, and both its card and its category must exist. */
  function PendingRowFor(s: Submission, cards: seq<Card>, categories: seq<Category>): Option<PendingRow> {
    if s.status != Pending then None
    else
      match (FindCard(cards, s.cardId), FindCategory(categories, s.categoryId))
      case (Some(c), Some(cat)) => Some(PendingRowOf(s, c, cat))
      case _ => None
  }

  /** `row` is what joining submission `s` against the store yields. */
  ghost predicate JoinsPending(t: Tables, s: Submission, row: PendingRow) {
    && s.status == Pending
    && FindCard(t.cards, s.cardId).Some?
    && FindCategory(t.categories, s.categoryId).Some?
    && row == PendingRowOf(s, FindCard(t.cards, s.cardId).value, FindCategory(t.categories, s.categoryId).value)
  }

  /** The joined rows before ORDER BY, in submission rowid order. */
  function JoinPending(subs: seq<Submission>, cards: seq<Card>, categories: seq<Category>): seq<PendingRow> {
    FilterMap(subs, (s: Submission) => PendingRowFor(s, cards, categories))
  }

  /** A row is joined exactly when some submission yields it. */
  lemma JoinPendingMembers(subs: seq<Submission>, cards: seq<Card>,
                           categories: seq<Category>, row: PendingRow)
    ensures row in JoinPending(subs, cards, categories) <==>
            exists k :: 0 <= k < |subs| && PendingRowFor(subs[k], cards, categories) == Some(row)
  {
    FilterMapMembers(subs, (s: Submission) => PendingRowFor(s, cards, categories), row);
  }

  /** ORDER BY cat.name, s.timestamp ASC. */
  function PendingKey(r: PendingRow): Key {
    Key(r.categoryName, r.timestamp)
  }

  lemma JoinedArePending(t: Tables, joined: seq<PendingRow>)
    requires joined == JoinPending(t.submissions, t.cards, t.categories)
    ensures forall i :: 0 <= i < |joined| ==> joined[i].status == Pending
  {
    forall i | 0 <= i < |joined| ensures joined[i].status == Pending {
      JoinPendingMembers(t.submissions, t.cards, t.categories, joined[i]);
    }
  }

  /** The rows GET /submissions/pending fetches, before grouping. */
  function PendingRows(t: Tables): (r: seq<PendingRow>)
    ensures SortedBy(r, PendingKey)
    ensures forall i :: 0 <= i < |r| ==> r[i].status == Pending
    ensures multiset(r) == multiset(JoinPending(t.submissions, t.cards, t.categories))
  {
    var joined := JoinPending(t.submissions, t.cards, t.categories);
    SortByKeyMembers(joined, PendingKey);
    JoinedArePending(t, joined);
    SortByKey(joined, PendingKey)
  }

  /** The pending listing holds exactly the rows built from a pending submission
      whose card and category both exist. */
  lemma PendingListingExactly(t: Tables, row: PendingRow)
    ensures row in PendingRows(t) <==>
            exists k :: 0 <= k < |t.submissions| && JoinsPending(t, t.submissions[k], row)
  {
    var joined := JoinPending(t.submissions, t.cards, t.categories);
    assert row in PendingRows(t) <==> row in joined by {
      assert row in PendingRows(t) <==> multiset(PendingRows(t))[row] > 0;
      assert row in joined <==> multiset(joined)[row] > 0;
    }
    JoinPendingMembers(t.submissions, t.cards, t.categories, row);
    if exists k :: 0 <= k < |t.submissions| && JoinsPending(t, t.submissions[k], row) {
      var k :| 0 <= k < |t.submissions| && JoinsPending(t, t.submissions[k], row);
      assert PendingRowFor(t.submissions[k], t.cards, t.categories) == Some(row);
    }
  }

  /** Once a card is deleted, no submission on it reaches the pending listing:
      every remaining row comes from a pending submission on another card. */
  lemma DeletedCardLeavesListing(t: Tables, cardId: int, row: PendingRow)
    requires row in PendingRows(t.(cards := WithoutCard(t.cards, cardId)))
    ensures exists k :: 0 <= k < |t.submissions| && t.submissions[k].id == row.id &&
                        t.submissions[k].status == Pending && t.submissions[k].cardId != cardId
  {
    var t' := t.(cards := WithoutCard(t.cards, cardId));
    PendingListingExactly(t', row);
    var k :| 0 <= k < |t'.submissions| && JoinsPending(t', t'.submissions[k], row);
  }

  /** Once a category is deleted, no submission on it reaches the pending listing. */
  lemma DeletedCategoryLeavesListing(t: Tables, categoryId: int, row: PendingRow)
    requires row in PendingRows(t.(categories := WithoutCategory(t.categories, categoryId)))
    ensures exists k :: 0 <= k < |t.submissions| && t.submissions[k].id == row.id &&
                        t.submissions[k].status == Pending && t.submissions[k].categoryId != categoryId
  {
    var t' := t.(categories := WithoutCategory(t.categories, categoryId));
    PendingListingExactly(t', row);
    var k :| 0 <= k < |t'.submissions| && JoinsPending(t', t'.submissions[k], row);
  }

  /** The rows of `rows` filed under category name `name`, in listing order. */
  function Bucket(rows: seq<PendingRow>, name: string): seq<PendingRow> {
    Filter(rows, (r: PendingRow) => r.categoryName == name)
  }

  /** The category names occurring in `rows`. */
  function Names(rows: seq<PendingRow>): set<string> {
    set r | r in rows :: r.categoryName
  }

  lemma BucketSnoc(rows: seq<PendingRow>, x: PendingRow, name: string)
    ensures Bucket(rows + [x], name) == Bucket(rows, name) + (if x.categoryName == name then [x] else [])
  {
    FilterSnoc(rows, x, (r: PendingRow) => r.categoryName == name);
  }

  lemma BucketOfAbsentName(rows: seq<PendingRow>, name: string)
    requires name !in Names(rows)
    ensures Bucket(rows, name) == []
  {
    assert forall i :: 0 <= i < |rows| ==> rows[i].categoryName != name by {
      forall i | 0 <= i < |rows| ensures rows[i].categoryName != name {
        assert rows[i] in rows;
      }
    }
    FilterNoneKept(rows, (r: PendingRow) => r.categoryName == name);
  }

  lemma BucketOfPresentName(rows: seq<PendingRow>, name: string)
    requires name in Names(rows)
    ensures Bucket(rows, name) != []
  {
    var x :| x in rows && x.categoryName == name;
    var i :| 0 <= i < |rows| && rows[i] == x;
    assert rows[i] in Bucket(rows, name);
  }

  /** One step of the `reduce`: file `row` under its category name, creating
      the bucket on first use and pushing onto it. */
  function FileUnder(acc: map<string, seq<PendingRow>>, row: PendingRow): map<string, seq<PendingRow>> {
    var name := row.categoryName;
    acc[name := (if name in acc then acc[name] else []) + [row]]
  }

  /** The `submissions` object of the pending response: the rows filed one
      after the other into an initially empty object. */
  function Grouped(rows: seq<PendingRow>): map<string, seq<PendingRow>>
    decreases |rows|
  {
    if rows == [] then map[] else FileUnder(Grouped(rows[..|rows| - 1]), rows[|rows| - 1])
  }

  /** The grouped object has one key per category name in the listing, and
      under each key exactly the rows with that name, in listing order. */
  lemma {:induction false} GroupedIsBuckets(rows: seq<PendingRow>)
    ensures Grouped(rows).Keys == Names(rows)
    ensures forall k :: k in Grouped(rows) ==> Grouped(rows)[k] == Bucket(rows, k)
    decreases |rows|
  {
    if rows != [] {
      var front, x := rows[..|rows| - 1], rows[|rows| - 1];
      assert rows == front + [x];
      GroupedIsBuckets(front);
      var m, n := Grouped(front), Grouped(rows);
      assert n == FileUnder(m, x);
      assert n.Keys == Names(rows) by {
        NamesSnoc(front, x);
      }
      forall k | k in n ensures n[k] == Bucket(rows, k) {
        BucketSnoc(front, x, k);
        if k == x.categoryName && k !in m {
          BucketOfAbsentName(front, k);
        }
      }
    }
  }

  /** No bucket is empty, and every row of a bucket is a listed row carrying
      the bucket's key: categories of different quizzes that share a name
      share a bucket. */
  lemma GroupedShape(rows: seq<PendingRow>)
    ensures forall k :: k in Grouped(rows) ==> Grouped(rows)[k] != []
    ensures forall k :: k in Grouped(rows) ==>
              forall i :: 0 <= i < |Grouped(rows)[k]| ==>
                Grouped(rows)[k][i].categoryName == k && Grouped(rows)[k][i] in rows
  {
    GroupedIsBuckets(rows);
    forall k | k in Grouped(rows) ensures Grouped(rows)[k] != [] {
      BucketOfPresentName(rows, k);
    }
  }

  lemma NamesSnoc(rows: seq<PendingRow>, x: PendingRow)
    ensures Names(rows + [x]) == Names(rows) + {x.categoryName}
  {
    forall r | r in rows + [x] ensures r in rows || r == x {
    }
  }

  /** The property names a fresh `{}` already answers to, inherited from
      Object.prototype. `acc[name]` is then a function (or, for `__proto__`,
      the prototype object), so the bucket is never created and the `push`
      that follows is not a method of what it finds: the reducer throws. */
  predicate InheritedName(name: string) {
    name in {"constructor", "toString", "toLocaleString", "valueOf", "hasOwnProperty",
             "isPrototypeOf", "propertyIsEnumerable", "__proto__", "__defineGetter__",
             "__defineSetter__", "__lookupGetter__", "__lookupSetter__"}
  }

  /** The `reduce` of the pending route. The reducer throws, and the route
      sends no reply (None), exactly when some row's category name is an
      inherited property name; otherwise the result is the grouped object. */
  method GroupByCategory(rows: seq<PendingRow>) returns (groups: Option<map<string, seq<PendingRow>>>)
    ensures groups.None? <==> exists i :: 0 <= i < |rows| && InheritedName(rows[i].categoryName)
    ensures groups.Some? ==> groups.value == Grouped(rows)
    ensures groups.Some? ==> groups.value.Keys == Names(rows)
    ensures groups.Some? ==> forall k :: k in groups.value ==> groups.value[k] == Bucket(rows, k)
  {
    var acc: map<string, seq<PendingRow>> := map[];
    var i := 0;
    while i < |rows|
      invariant 0 <= i <= |rows|
      invariant acc == Grouped(rows[..i])
      invariant forall k :: 0 <= k < i ==> !InheritedName(rows[k].categoryName)
    {
      var row := rows[i];
      var name := row.categoryName;
      if InheritedName(name) {
        return None;
      }
      if name !in acc { acc := acc[name := []]; }
      acc := acc[name := acc[name] + [row]];
      assert rows[..i + 1][..i] == rows[..i];
      i := i + 1;
    }
    assert rows[..i] == rows;
    GroupedIsBuckets(rows);
    return Some(acc);
  }

  /** A row is in the bucket of a name exactly when it is a listed row with
      that category name. */
  lemma BucketMembers(rows: seq<PendingRow>, name: string, row: PendingRow)
    ensures (name in Grouped(rows) && row in Grouped(rows)[name]) <==> (row in rows && row.categoryName == name)
  {
    GroupedIsBuckets(rows);
    if row in rows && row.categoryName == name {
      assert name in Names(rows);
      var i :| 0 <= i < |rows| && rows[i] == row;
      assert rows[i] in Bucket(rows, name);
    }
    if name in Grouped(rows) && row in Grouped(rows)[name] {
      var i :| 0 <= i < |Bucket(rows, name)| && Bucket(rows, name)[i] == row;
    }
  }

  /** Within each bucket of the pending listing, timestamps never decrease. */
  lemma PendingBucketsChronological(t: Tables, name: string)
    requires name in Grouped(PendingRows(t))
    ensures forall i, j :: 0 <= i < j < |Grouped(PendingRows(t))[name]| ==>
              Grouped(PendingRows(t))[name][i].timestamp <= Grouped(PendingRows(t))[name][j].timestamp
  {
    var rows := PendingRows(t);
    GroupedIsBuckets(rows);
    var b := Grouped(rows)[name];
    FilterKeepsSorted(rows, (r: PendingRow) => r.categoryName == name, PendingKey);
    assert SortedBy(b, PendingKey);
    forall i, j | 0 <= i < j < |b| ensures b[i].timestamp <= b[j].timestamp {
      assert KeyLe(PendingKey(b[i]), PendingKey(b[j]));
    }
  }

  /** The buckets of `m` concatenated in the order `order` lists their keys:
      the order in which a client walks `Object.values`. */
  function Flatten(m: map<string, seq<PendingRow>>, order: seq<string>): seq<PendingRow>
    requires forall i :: 0 <= i < |order| ==> order[i] in m
    decreases |order|
  {
    if order == [] then [] else m[order[0]] + Flatten(m, order[1..])
  }

  /** `order` lists every key of `keys` exactly once. */
  ghost predicate Enumerates(order: seq<string>, keys: set<string>) {
    && (forall i, j :: 0 <= i < j < |order| ==> order[i] != order[j])
    && (forall i :: 0 <= i < |order| ==> order[i] in keys)
    && (forall k :: k in keys ==> k in order)
  }

  /** The rows whose category name is among `names`. */
  function NamedIn(rows: seq<PendingRow>, names: seq<string>): seq<PendingRow> {
    Filter(rows, (r: PendingRow) => r.categoryName in names)
  }

  lemma {:induction false} FlattenIsNamedIn(rows: seq<PendingRow>, order: seq<string>)
    requires forall i, j :: 0 <= i < j < |order| ==> order[i] != order[j]
    requires forall i :: 0 <= i < |order| ==> order[i] in Grouped(rows)
    ensures multiset(Flatten(Grouped(rows), order)) == multiset(NamedIn(rows, order))
    decreases |order|
  {
    if order == [] {
      FilterNoneKept(rows, (r: PendingRow) => r.categoryName in order);
    } else {
      var o, rest := order[0], order[1..];
      assert forall i, j :: 0 <= i < j < |rest| ==> rest[i] != rest[j] by {
        forall i, j | 0 <= i < j < |rest| ensures rest[i] != rest[j] {
          assert rest[i] == order[i + 1] && rest[j] == order[j + 1];
        }
      }
      FlattenIsNamedIn(rows, rest);
      assert Grouped(rows)[o] == Bucket(rows, o) by {
        GroupedIsBuckets(rows);
      }
      assert o !in rest by {
        forall i | 0 <= i < |rest| ensures rest[i] != o {
          assert rest[i] == order[i + 1];
        }
      }
      assert multiset(NamedIn(rows, order)) == multiset(Bucket(rows, o)) + multiset(NamedIn(rows, rest)) by {
        forall i | 0 <= i < |rows|
          ensures (rows[i].categoryName in order) == (rows[i].categoryName == o || rows[i].categoryName in rest)
        {
          assert order == [o] + rest;
        }
        FilterDisjointUnion(rows, (r: PendingRow) => r.categoryName == o,
                            (r: PendingRow) => r.categoryName in rest,
                            (r: PendingRow) => r.categoryName in order);
      }
    }
  }

  /** The buckets together hold exactly the listed rows, with nothing lost and
      nothing repeated, in whatever order their keys are walked. */
  lemma FlattenGroupedIsPermutation(rows: seq<PendingRow>, order: seq<string>)
    requires Enumerates(order, Grouped(rows).Keys)
    ensures multiset(Flatten(Grouped(rows), order)) == multiset(rows)
    ensures |Flatten(Grouped(rows), order)| == |rows|
  {
    GroupedIsBuckets(rows);
    FlattenIsNamedIn(rows, order);
    assert forall i :: 0 <= i < |rows| ==> rows[i].categoryName in order by {
      forall i | 0 <= i < |rows| ensures rows[i].categoryName in order {
        assert rows[i] in rows;
      }
    }
    FilterAllKept(rows, (r: PendingRow) => r.categoryName in order);
    assert |Flatten(Grouped(rows), order)| == |multiset(Flatten(Grouped(rows), order))|;
  }

  /** The only targets PATCH /submissions/:id/status accepts; a missing or
      other `status` in the body has none. */
  function ParseTarget(status: Option<string>): (r: Option<Status>)
    ensures r.Some? <==> status == Some("approved") || status == Some("rejected")
    ensures r.Some? ==> r.value != Pending && StatusText(r.value) == status.value
  {
    match status
    case Some(text) =>
      if text == "approved" then Some(Approved)
      else if text == "rejected" then Some(Rejected)
      else None
    case None => None
  }

  /** UPDATE submission SET status = ? WHERE id = ?: the row with that id
      takes the status whatever it held before; no other row changes. */
  function SetStatus(subs: seq<Submission>, id: int, st: Status): seq<Submission> {
    ReplaceWhere(subs, SubmissionIdOf, id, (s: Submission) => s.(status := st))
  }

  /** The last status update of an id wins; the earlier one, and whether the
      submission had already been approved or rejected, leave no trace. */
  lemma SetStatusLastWins(subs: seq<Submission>, id: int, a: Status, b: Status)
    ensures SetStatus(SetStatus(subs, id, a), id, b) == SetStatus(subs, id, b)
  {
  }

  /** Updating an id no submission has changes nothing (and the route still
      answers with success). */
  lemma SetStatusUnknownId(subs: seq<Submission>, id: int, st: Status)
    requires forall i :: 0 <= i < |subs| ==> subs[i].id != id
    ensures SetStatus(subs, id, st) == subs
  {
  }

  /** A status update keeps the ids, so the table stays keyed, and the updated
      row is found with its new status. */
  lemma SetStatusKeepsKeys(subs: seq<Submission>, id: int, st: Status, top: int, x: Submission)
    requires Keyed(subs, SubmissionIdOf, top)
    requires x in subs && x.id == id
    ensures Keyed(SetStatus(subs, id, st), SubmissionIdOf, top)
    ensures FindById(SetStatus(subs, id, st), SubmissionIdOf, id) == Some(x.(status := st))
  {
    ReplaceWhereKeepsKeys(subs, SubmissionIdOf, id, (s: Submission) => s.(status := st), top, x);
  }
}
