/** The browser's shared session state (src/contexts/AppContext.tsx): the quiz
    being played and the local card index, the player's name, the
    authentication flags and the pending submissions grouped by category.
    Each awaited `fetch` is a parameter saying how it ended; the requests that
    change server state are appended to `sent`. */
module Client {
  import opened Wrappers
  import opened Sequences
  import opened Schema
  import opened Catalog
  import opened Moderation

  datatype AuthType = Validation | Admin

  /** How an awaited `fetch` (with its `response.json()`) ended: it threw, or it
      resolved with a body, whatever the HTTP status of the response. */
  datatype Fetched<T> = Threw | Resolved(body: T)

  /** A request the client sends to change server state. */
  datatype Request =
    | PostSubmission(userName: string, cardId: int, categoryId: int)
    | PatchStatus(id: int, status: Status)
    | PostAuth(authType: AuthType, password: string)

  /** The pending submissions keyed by category name, as GET /submissions/pending sends them. */
  type Buckets = map<string, seq<PendingRow>>

  /** A bucket with the rows of submission `id` filtered out. */
  function Without(bucket: seq<PendingRow>, id: int): seq<PendingRow> {
    Filter(bucket, (s: PendingRow) => s.id != id)
  }

  /** The map the status update leaves behind: `id` gone from every bucket, and
      the buckets it emptied deleted. */
  function Pruned(m: Buckets, id: int): (r: Buckets)
    ensures r.Keys <= m.Keys
    ensures forall k :: k in r ==> r[k] != []
    ensures forall k :: k in r ==> forall i :: 0 <= i < |r[k]| ==> r[k][i].id != id && r[k][i] in m[k]
  {
    map k | k in m && Without(m[k], id) != [] :: Without(m[k], id)
  }

  /** Every other submission keeps its bucket, and each bucket keeps its order;
      a bucket goes only when every row in it was submission `id`. */
  lemma PrunedKeepsOthers(m: Buckets, id: int)
    ensures forall k, r :: k in m && r in m[k] && r.id != id ==> k in Pruned(m, id) && r in Pruned(m, id)[k]
    ensures forall k :: k in m && k !in Pruned(m, id) ==> forall i :: 0 <= i < |m[k]| ==> m[k][i].id == id
    ensures forall k :: k in Pruned(m, id) ==> IsSubsequence(Pruned(m, id)[k], m[k])
  {
    forall k, r | k in m && r in m[k] && r.id != id
      ensures k in Pruned(m, id) && r in Pruned(m, id)[k]
    {
      var i :| 0 <= i < |m[k]| && m[k][i] == r;
      assert r in Without(m[k], id);
    }
    forall k | k in Pruned(m, id) ensures IsSubsequence(Pruned(m, id)[k], m[k]) {
      FilterIsSubsequence(m[k], (s: PendingRow) => s.id != id);
    }
  }

  /** The updater's copy part-way through, for a bucket filter `f`: the
      categories still in `todo` untouched, the others filtered and gone once
      empty. */
  ghost function PartlyPruned<V>(m: map<string, seq<V>>, f: seq<V> -> seq<V>, todo: set<string>): map<string, seq<V>> {
    map k | k in m && (k in todo || f(m[k]) != []) :: if k in todo then m[k] else f(m[k])
  }

  /** Handling one more category moves the copy one step on. */
  lemma PartlyPrunedStep<V>(m: map<string, seq<V>>, f: seq<V> -> seq<V>, todo: set<string>, category: string)
    requires category in todo && todo <= m.Keys
    ensures var u := PartlyPruned(m, f, todo);
            var kept := f(u[category]);
            (if |kept| == 0 then u[category := kept] - {category} else u[category := kept])
              == PartlyPruned(m, f, todo - {category})
  {
    var u := PartlyPruned(m, f, todo);
    var kept := f(u[category]);
    var next := if |kept| == 0 then u[category := kept] - {category} else u[category := kept];
    assert next.Keys == PartlyPruned(m, f, todo - {category}).Keys;
  }

  lemma PartlyPrunedEnds(m: Buckets, id: int)
    ensures PartlyPruned(m, (b: seq<PendingRow>) => Without(b, id), m.Keys) == m
    ensures PartlyPruned(m, (b: seq<PendingRow>) => Without(b, id), {}) == Pruned(m, id)
  {
    assert PartlyPruned(m, (b: seq<PendingRow>) => Without(b, id), {}).Keys == Pruned(m, id).Keys;
  }

  /** The state updater passed to `setPendingSubmissions`: a copy of the map,
      then, for each category it had, the bucket filtered and deleted once empty. */
  method PruneBuckets(prev: Buckets, id: int) returns (updated: Buckets)
    ensures updated == Pruned(prev, id)
  {
    updated := prev;
    var todo := prev.Keys;
    ghost var f := (b: seq<PendingRow>) => Without(b, id);
    PartlyPrunedEnds(prev, id);
    while todo != {}
      invariant todo <= prev.Keys
      invariant updated == PartlyPruned(prev, f, todo)
      decreases |todo|
    {
      var category :| category in todo;
      PartlyPrunedStep(prev, f, todo, category);
      var kept := Without(updated[category], id);
      updated := updated[category := kept];
      if |kept| == 0 {
        updated := updated - {category};
      }
      todo := todo - {category};
    }
  }

  /** The PATCH requests that set `status` on each row in turn. */
  function Patches(rows: seq<PendingRow>, status: Status): (r: seq<Request>)
    ensures |r| == |rows|
    ensures forall i :: 0 <= i < |rows| ==> r[i] == PatchStatus(rows[i].id, status)
  {
    seq(|rows|, i requires 0 <= i < |rows| => PatchStatus(rows[i].id, status))
  }

  /** The map after one status update per row in turn, each pruning its row's
      id when its `fetch` resolved and leaving the map alone when it threw. */
  function PrunedAll(m: Buckets, rows: seq<PendingRow>, responses: seq<Fetched<int>>): (r: Buckets)
    requires |rows| == |responses|
    ensures r.Keys <= m.Keys
    decreases |rows|
  {
    if rows == [] then m
    else
      var n := |rows| - 1;
      var prev := PrunedAll(m, rows[..n], responses[..n]);
      if responses[n].Resolved? then Pruned(prev, rows[n].id) else prev
  }

  /** After the updates, every row left was in its bucket before, no row left
      belongs to an update that resolved, and no bucket that started non-empty
      is left empty. */
  lemma {:induction false} PrunedAllShape(m: Buckets, rows: seq<PendingRow>, responses: seq<Fetched<int>>)
    requires |rows| == |responses|
    requires forall k :: k in m ==> m[k] != []
    ensures forall k :: k in PrunedAll(m, rows, responses) ==> PrunedAll(m, rows, responses)[k] != []
    ensures forall k, x: PendingRow :: k in PrunedAll(m, rows, responses) && x in PrunedAll(m, rows, responses)[k] ==> x in m[k]
    ensures forall k, x: PendingRow, j ::
              (k in PrunedAll(m, rows, responses) && x in PrunedAll(m, rows, responses)[k]
               && 0 <= j < |rows| && responses[j].Resolved?) ==> x.id != rows[j].id
    decreases |rows|
  {
    if rows != [] {
      var n := |rows| - 1;
      PrunedAllShape(m, rows[..n], responses[..n]);
      var prev := PrunedAll(m, rows[..n], responses[..n]);
      var r := PrunedAll(m, rows, responses);
      forall k, x: PendingRow, j | k in r && x in r[k] && 0 <= j < |rows| && responses[j].Resolved?
        ensures x.id != rows[j].id
      {
        if j < n {
          assert rows[..n][j] == rows[j] && responses[..n][j] == responses[j];
        }
      }
    }
  }

  /** The summed bucket sizes, added up in the key order `order`. */
  function TotalPending(m: Buckets, order: seq<string>): nat
    requires forall i :: 0 <= i < |order| ==> order[i] in m
    decreases |order|
  {
    if order == [] then 0 else |m[order[0]]| + TotalPending(m, order[1..])
  }

  /** The total is the length of the flattened list the accept-all loop walks. */
  lemma {:induction false} TotalIsFlattenLength(m: Buckets, order: seq<string>)
    requires forall i :: 0 <= i < |order| ==> order[i] in m
    ensures TotalPending(m, order) == |Flatten(m, order)|
    decreases |order|
  {
    if order != [] {
      TotalIsFlattenLength(m, order[1..]);
    }
  }

  /** A row of a bucket whose key is listed is in the flattened list. */
  lemma {:induction false} FlattenContains(m: Buckets, order: seq<string>, k: string, r: PendingRow)
    requires forall i :: 0 <= i < |order| ==> order[i] in m
    requires k in order && k in m && r in m[k]
    ensures r in Flatten(m, order)
    decreases |order|
  {
    if order[0] != k {
      FlattenContains(m, order[1..], k, r);
    }
  }

  /** Accepting every submission of the snapshot, each request resolving,
      empties the map, given buckets that start non-empty as the server sends them. */
  lemma AcceptAllClears(m: Buckets, order: seq<string>, responses: seq<Fetched<int>>)
    requires Enumerates(order, m.Keys)
    requires forall k :: k in m ==> m[k] != []
    requires |responses| == |Flatten(m, order)|
    requires forall i :: 0 <= i < |responses| ==> responses[i].Resolved?
    ensures PrunedAll(m, Flatten(m, order), responses) == map[]
  {
    var rows := Flatten(m, order);
    var r := PrunedAll(m, rows, responses);
    PrunedAllShape(m, rows, responses);
    if k :| k in r {
      var row := r[k][0];
      FlattenContains(m, order, k, row);
      assert false;
    }
  }

  /** The bucket totals are zero exactly when every bucket is empty. */
  lemma {:induction false} TotalZeroIff(m: Buckets, order: seq<string>)
    requires Enumerates(order, m.Keys)
    ensures TotalPending(m, order) == 0 <==> forall k :: k in m ==> m[k] == []
  {
    TotalZeroIffListed(m, order);
  }

  lemma {:induction false} TotalZeroIffListed(m: Buckets, order: seq<string>)
    requires forall i :: 0 <= i < |order| ==> order[i] in m
    ensures TotalPending(m, order) == 0 <==> forall i :: 0 <= i < |order| ==> m[order[i]] == []
    decreases |order|
  {
    if order != [] {
      TotalZeroIffListed(m, order[1..]);
      assert forall i :: 1 <= i < |order| ==> order[i] == order[1..][i - 1];
    }
  }

  /** Over the map the server builds, the total is the number of pending rows. */
  lemma TotalOfGrouped(rows: seq<PendingRow>, order: seq<string>)
    requires Enumerates(order, Grouped(rows).Keys)
    ensures TotalPending(Grouped(rows), order) == |rows|
  {
    TotalIsFlattenLength(Grouped(rows), order);
    FlattenGroupedIsPermutation(rows, order);
  }

  /** The card at the current index; beyond the end there is none. */
  function CardAt(cards: seq<Card>, index: nat): (r: Option<Card>)
    ensures r.Some? <==> index < |cards|
    ensures r.Some? ==> r.value == cards[index] && r.value in cards
  {
    if index < |cards| then Some(cards[index]) else None
  }

  /** The quiz is over once the index has reached the number of cards. */
  predicate IsQuizComplete(index: nat, cards: seq<Card>) {
    index >= |cards|
  }

  /** Completion and the absence of a current card are the same condition. */
  lemma CompleteIffNoCard(index: nat, cards: seq<Card>)
    ensures IsQuizComplete(index, cards) <==> CardAt(cards, index) == None
    ensures IsQuizComplete(index, cards) ==> IsQuizComplete(index + 1, cards)
  {
  }

  /** A snapshot of the quiz-side fields of the context. */
  datatype QuizSession = QuizSession(activeQuizzes: seq<Quiz>, allQuizzes: seq<Quiz>,
                                     currentQuiz: Option<Quiz>, currentCards: seq<Card>,
                                     currentCategories: seq<Category>, currentCardIndex: nat,
                                     userName: string)

  class AppContext {
    var activeQuizzes: seq<Quiz>
    var allQuizzes: seq<Quiz>
    var currentQuiz: Option<Quiz>
    var currentCards: seq<Card>
    var currentCategories: seq<Category>
    var currentCardIndex: nat
    var userName: string
    var isAuthenticated: bool
    var authType: Option<AuthType>
    var pendingSubmissions: Buckets
    var sent: seq<Request>

    /** The part of the context the quiz pages show: both listings, the
        current quiz with its cards and categories, and the player's progress. */
    function QuizView(): QuizSession
      reads this
    {
      QuizSession(activeQuizzes, allQuizzes, currentQuiz, currentCards, currentCategories,
                  currentCardIndex, userName)
    }

    /** The authentication flag and the authentication type are set together. */
    ghost predicate Valid()
      reads this
    {
      isAuthenticated <==> authType.Some?
    }

    constructor ()
      ensures Valid()
      ensures activeQuizzes == [] && allQuizzes == []
      ensures currentQuiz == None && currentCards == [] && currentCategories == []
      ensures currentCardIndex == 0 && userName == ""
      ensures !isAuthenticated && authType == None
      ensures pendingSubmissions == map[] && sent == []
    {
      activeQuizzes, allQuizzes := [], [];
      currentQuiz, currentCards, currentCategories := None, [], [];
      currentCardIndex, userName := 0, "";
      isAuthenticated, authType := false, None;
      pendingSubmissions, sent := map[], [];
    }

    /** loadActiveQuizzes: the listing replaces the old one; a failure keeps it. */
    method LoadActiveQuizzes(response: Fetched<seq<Quiz>>)
      modifies this
      ensures activeQuizzes == if response.Resolved? then response.body else old(activeQuizzes)
      ensures allQuizzes == old(allQuizzes) && currentQuiz == old(currentQuiz)
      ensures currentCards == old(currentCards) && currentCategories == old(currentCategories)
      ensures currentCardIndex == old(currentCardIndex) && userName == old(userName)
      ensures isAuthenticated == old(isAuthenticated) && authType == old(authType)
      ensures pendingSubmissions == old(pendingSubmissions) && sent == old(sent)
    {
      if response.Resolved? {
        activeQuizzes := response.body;
      }
    }

    /** loadAllQuizzes: the same for the full listing. */
    method LoadAllQuizzes(response: Fetched<seq<Quiz>>)
      modifies this
      ensures allQuizzes == if response.Resolved? then response.body else old(allQuizzes)
      ensures activeQuizzes == old(activeQuizzes) && currentQuiz == old(currentQuiz)
      ensures currentCards == old(currentCards) && currentCategories == old(currentCategories)
      ensures currentCardIndex == old(currentCardIndex) && userName == old(userName)
      ensures isAuthenticated == old(isAuthenticated) && authType == old(authType)
      ensures pendingSubmissions == old(pendingSubmissions) && sent == old(sent)
    {
      if response.Resolved? {
        allQuizzes := response.body;
      }
    }

    /** loadQuiz: a resolved answer replaces the quiz, its cards and its
        categories and puts the index back to 0; a 404 body has no quiz in it,
        which leaves no current quiz. A failure changes nothing. */
    method LoadQuiz(response: Fetched<Result<QuizDetail, Failure>>)
      requires Valid()
      modifies this
      ensures Valid()
      ensures response.Resolved? && response.body.Success? ==>
                && currentQuiz == Some(response.body.value.quiz)
                && currentCards == response.body.value.cards
                && currentCategories == response.body.value.categories
      ensures response.Resolved? && response.body.Failure? ==>
                currentQuiz == None && currentCards == [] && currentCategories == []
      ensures response.Resolved? ==> currentCardIndex == 0
      ensures response.Threw? ==>
                && currentQuiz == old(currentQuiz) && currentCards == old(currentCards)
                && currentCategories == old(currentCategories) && currentCardIndex == old(currentCardIndex)
      ensures activeQuizzes == old(activeQuizzes) && allQuizzes == old(allQuizzes) && userName == old(userName)
      ensures isAuthenticated == old(isAuthenticated) && authType == old(authType)
      ensures pendingSubmissions == old(pendingSubmissions) && sent == old(sent)
    {
      match response
      case Threw =>
      case Resolved(Success(d)) =>
        currentQuiz, currentCards, currentCategories := Some(d.quiz), d.cards, d.categories;
        currentCardIndex := 0;
      case Resolved(Failure(_)) =>
        currentQuiz, currentCards, currentCategories := None, [], [];
        currentCardIndex := 0;
    }

    /** submitAnswer: posts the current player name with the card and the
        category; the outcome of the request changes nothing here. */
    method SubmitAnswer(cardId: int, categoryId: int)
      modifies this
      ensures sent == old(sent) + [PostSubmission(old(userName), cardId, categoryId)]
      ensures activeQuizzes == old(activeQuizzes) && allQuizzes == old(allQuizzes) && currentQuiz == old(currentQuiz)
      ensures currentCards == old(currentCards) && currentCategories == old(currentCategories)
      ensures currentCardIndex == old(currentCardIndex) && userName == old(userName)
      ensures isAuthenticated == old(isAuthenticated) && authType == old(authType)
      ensures pendingSubmissions == old(pendingSubmissions)
    {
      sent := sent + [PostSubmission(userName, cardId, categoryId)];
    }

    /** nextCard: one step on, with no upper bound. */
    method NextCard()
      modifies this
      ensures currentCardIndex == old(currentCardIndex) + 1
      ensures activeQuizzes == old(activeQuizzes) && allQuizzes == old(allQuizzes) && currentQuiz == old(currentQuiz)
      ensures currentCards == old(currentCards) && currentCategories == old(currentCategories)
      ensures userName == old(userName) && isAuthenticated == old(isAuthenticated) && authType == old(authType)
      ensures pendingSubmissions == old(pendingSubmissions) && sent == old(sent)
    {
      currentCardIndex := currentCardIndex + 1;
    }

    /** resetQuiz: back to the first card, and the player name cleared. */
    method ResetQuiz()
      modifies this
      ensures currentCardIndex == 0 && userName == ""
      ensures activeQuizzes == old(activeQuizzes) && allQuizzes == old(allQuizzes) && currentQuiz == old(currentQuiz)
      ensures currentCards == old(currentCards) && currentCategories == old(currentCategories)
      ensures isAuthenticated == old(isAuthenticated) && authType == old(authType)
      ensures pendingSubmissions == old(pendingSubmissions) && sent == old(sent)
    {
      currentCardIndex, userName := 0, "";
    }

    method SetUserName(name: string)
      modifies this
      ensures userName == name
      ensures activeQuizzes == old(activeQuizzes) && allQuizzes == old(allQuizzes) && currentQuiz == old(currentQuiz)
      ensures currentCards == old(currentCards) && currentCategories == old(currentCategories)
      ensures currentCardIndex == old(currentCardIndex)
      ensures isAuthenticated == old(isAuthenticated) && authType == old(authType)
      ensures pendingSubmissions == old(pendingSubmissions) && sent == old(sent)
    {
      userName := name;
    }

    /** authenticate: posts the password; only a response with an ok status
        sets the flags, and the answer says whether it did. */
    method Authenticate(password: string, kind: AuthType, response: Fetched<bool>) returns (success: bool)
      requires Valid()
      modifies this
      ensures Valid()
      ensures sent == old(sent) + [PostAuth(kind, password)]
      ensures success <==> response == Resolved(true)
      ensures success ==> isAuthenticated && authType == Some(kind)
      ensures !success ==> isAuthenticated == old(isAuthenticated) && authType == old(authType)
      ensures activeQuizzes == old(activeQuizzes) && allQuizzes == old(allQuizzes) && currentQuiz == old(currentQuiz)
      ensures currentCards == old(currentCards) && currentCategories == old(currentCategories)
      ensures currentCardIndex == old(currentCardIndex) && userName == old(userName)
      ensures pendingSubmissions == old(pendingSubmissions)
    {
      sent := sent + [PostAuth(kind, password)];
      if response == Resolved(true) {
        isAuthenticated, authType := true, Some(kind);
        success := true;
      } else {
        success := false;
      }
    }

    method Logout()
      modifies this
      ensures Valid()
      ensures !isAuthenticated && authType == None
      ensures activeQuizzes == old(activeQuizzes) && allQuizzes == old(allQuizzes) && currentQuiz == old(currentQuiz)
      ensures currentCards == old(currentCards) && currentCategories == old(currentCategories)
      ensures currentCardIndex == old(currentCardIndex) && userName == old(userName)
      ensures pendingSubmissions == old(pendingSubmissions) && sent == old(sent)
    {
      isAuthenticated, authType := false, None;
    }

    /** loadPendingSubmissions: the grouped map replaces the old one. */
    method LoadPendingSubmissions(response: Fetched<Buckets>)
      modifies this
      ensures pendingSubmissions == if response.Resolved? then response.body else old(pendingSubmissions)
      ensures activeQuizzes == old(activeQuizzes) && allQuizzes == old(allQuizzes) && currentQuiz == old(currentQuiz)
      ensures currentCards == old(currentCards) && currentCategories == old(currentCategories)
      ensures currentCardIndex == old(currentCardIndex) && userName == old(userName)
      ensures isAuthenticated == old(isAuthenticated) && authType == old(authType) && sent == old(sent)
    {
      if response.Resolved? {
        pendingSubmissions := response.body;
      }
    }

    /** updateSubmissionStatus: sends the PATCH, then prunes the submission
        locally once `fetch` resolved, whatever the status it answered with;
        the map is kept only when `fetch` threw. */
    method UpdateSubmissionStatus(id: int, status: Status, response: Fetched<int>)
      requires status != Pending
      modifies this
      ensures sent == old(sent) + [PatchStatus(id, status)]
      ensures pendingSubmissions == if response.Resolved? then Pruned(old(pendingSubmissions), id)
                                    else old(pendingSubmissions)
      ensures activeQuizzes == old(activeQuizzes) && allQuizzes == old(allQuizzes) && currentQuiz == old(currentQuiz)
      ensures currentCards == old(currentCards) && currentCategories == old(currentCategories)
      ensures currentCardIndex == old(currentCardIndex) && userName == old(userName)
      ensures isAuthenticated == old(isAuthenticated) && authType == old(authType)
    {
      sent := sent + [PatchStatus(id, status)];
      if response.Resolved? {
        pendingSubmissions := PruneBuckets(pendingSubmissions, id);
      }
    }
  }
}
