/** The read routes of the catalog: quizzes (server/routes/quiz.js), cards
    (server/routes/cards.js) and categories (server/routes/categories.js). */
module Catalog {
  import opened Wrappers
  import opened Sequences
  import opened Ordering
  import opened Schema

  /** `ORDER BY created_at DESC`, as an ascending key: the negated creation time. */
  function NewestFirstKey(q: Quiz): Key {
    Key("", -q.createdAt)
  }

  ghost predicate NewestFirst(qs: seq<Quiz>) {
    forall i, j :: 0 <= i < j < |qs| ==> qs[i].createdAt >= qs[j].createdAt
  }

  /** Ascending by the negated time is descending by creation time. */
  lemma NewestFirstWhenSorted(qs: seq<Quiz>)
    requires SortedBy(qs, NewestFirstKey)
    ensures NewestFirst(qs)
  {
  }

  /** `isActive = 1`: a NULL flag is not active. */
  predicate IsActiveQuiz(q: Quiz) {
    q.isActive == Some(true)
  }

  /** GET /quiz/active: the quizzes whose flag is set, each once, newest first. */
  function ActiveQuizzes(quizzes: seq<Quiz>): (r: seq<Quiz>)
    ensures forall i :: 0 <= i < |r| ==> r[i] in quizzes && r[i].isActive == Some(true)
    ensures forall i :: 0 <= i < |quizzes| && quizzes[i].isActive == Some(true) ==> quizzes[i] in r
    ensures multiset(r) <= multiset(quizzes)
    ensures NewestFirst(r)
  {
    SortedFilterMembers(quizzes, IsActiveQuiz, NewestFirstKey);
    NewestFirstWhenSorted(SortByKey(Filter(quizzes, IsActiveQuiz), NewestFirstKey));
    SortByKey(Filter(quizzes, IsActiveQuiz), NewestFirstKey)
  }

  /** GET /quiz/all: every quiz, each once, newest first. */
  function AllQuizzes(quizzes: seq<Quiz>): (r: seq<Quiz>)
    ensures multiset(r) == multiset(quizzes)
    ensures NewestFirst(r)
  {
    NewestFirstWhenSorted(SortByKey(quizzes, NewestFirstKey));
    SortByKey(quizzes, NewestFirstKey)
  }

  /** GET /cards/quiz/:quizId: the cards of that quiz, in table order. */
  function CardsOfQuiz(cards: seq<Card>, quizId: int): (r: seq<Card>)
    ensures forall i :: 0 <= i < |r| ==> r[i] in cards && r[i].quizId == quizId
    ensures forall i :: 0 <= i < |cards| && cards[i].quizId == quizId ==> cards[i] in r
    ensures IdsIncreasing(cards, CardIdOf) ==> IdsIncreasing(r, CardIdOf)
  {
    var r := Filter(cards, (c: Card) => c.quizId == quizId);
    FilterKeepsIncreasing(cards, (c: Card) => c.quizId == quizId, CardIdOf);
    r
  }

  /** GET /categories/quiz/:quizId: the categories of that quiz, in table order. */
  function CategoriesOfQuiz(categories: seq<Category>, quizId: int): (r: seq<Category>)
    ensures forall i :: 0 <= i < |r| ==> r[i] in categories && r[i].quizId == quizId
    ensures forall i :: 0 <= i < |categories| && categories[i].quizId == quizId ==> categories[i] in r
    ensures IdsIncreasing(categories, CategoryIdOf) ==> IdsIncreasing(r, CategoryIdOf)
  {
    var r := Filter(categories, (c: Category) => c.quizId == quizId);
    FilterKeepsIncreasing(categories, (c: Category) => c.quizId == quizId, CategoryIdOf);
    r
  }

  /** The body of a successful GET /quiz/:id. */
  datatype QuizDetail = QuizDetail(quiz: Quiz, cards: seq<Card>, categories: seq<Category>)

  /** GET /quiz/:id: 404 when no quiz has that id; otherwise the quiz with its
      cards and its categories, each ascending by id. */
  function GetQuiz(t: Tables, id: int): (r: Result<QuizDetail, Failure>)
    ensures r.Failure? <==> forall i :: 0 <= i < |t.quizzes| ==> t.quizzes[i].id != id
    ensures r.Failure? ==> r.error == QuizNotFound
    ensures r.Success? ==> r.value.quiz in t.quizzes && r.value.quiz.id == id
    ensures r.Success? ==> r.value.cards == CardsOfQuiz(t.cards, id)
    ensures r.Success? ==> r.value.categories == CategoriesOfQuiz(t.categories, id)
  {
    match FindQuiz(t.quizzes, id)
    case None => Failure(QuizNotFound)
    case Some(q) => Success(QuizDetail(q, CardsOfQuiz(t.cards, id), CategoriesOfQuiz(t.categories, id)))
  }

  /** The active listing is the full listing with the inactive and NULL-flag
      quizzes taken out: a quiz of the table appears in the active listing
      exactly when it appears in the full one and its flag is set. */
  lemma ActiveIsAllFiltered(quizzes: seq<Quiz>)
    ensures forall i :: 0 <= i < |quizzes| ==>
      (quizzes[i] in ActiveQuizzes(quizzes) <==> quizzes[i] in AllQuizzes(quizzes) && IsActiveQuiz(quizzes[i]))
  {
    var all := AllQuizzes(quizzes);
    forall i | 0 <= i < |quizzes| ensures quizzes[i] in all {
      assert quizzes[i] in multiset(quizzes);
    }
  }

  /** An active quiz appears exactly as often in the active listing as in the table. */
  lemma ActiveListsEachOnce(quizzes: seq<Quiz>, q: Quiz)
    requires IsActiveQuiz(q)
    ensures multiset(ActiveQuizzes(quizzes))[q] == multiset(quizzes)[q]
  {
    var active := Filter(quizzes, IsActiveQuiz);
    FilterCountsKept(quizzes, IsActiveQuiz, q);
  }
}
