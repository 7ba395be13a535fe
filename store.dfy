/** The SQLite store as one object whose tables the routes change in place:
    the schema of server/database.js as a class invariant, the seed run at
    start-up, and the INSERT, UPDATE and DELETE statements of the routes in
    server/routes/. A request field the client leaves out is None, which the
    driver binds as NULL. */
module Store {
  import opened Wrappers
  import opened Sequences
  import opened Schema
  import opened Catalog
  import opened Moderation

  /** `NOT isActive`: NULL stays NULL. */
  function Toggled(q: Quiz): (r: Quiz)
    ensures r.id == q.id && r.name == q.name && r.description == q.description && r.createdAt == q.createdAt
    ensures q.isActive.None? ==> r.isActive.None?
    ensures q.isActive.Some? ==> r.isActive == Some(!q.isActive.value)
  {
    q.(isActive := match q.isActive case None => None case Some(b) => Some(!b))
  }

  /** Toggling a quiz twice restores every quiz of the table. */
  lemma ToggleTwice(quizzes: seq<Quiz>, id: int)
    ensures ReplaceWhere(ReplaceWhere(quizzes, QuizIdOf, id, Toggled), QuizIdOf, id, Toggled) == quizzes
  {
    var once := ReplaceWhere(quizzes, QuizIdOf, id, Toggled);
    var twice := ReplaceWhere(once, QuizIdOf, id, Toggled);
    forall i | 0 <= i < |quizzes| ensures twice[i] == quizzes[i] {
      assert once[i].id == quizzes[i].id;
    }
  }

  /** `UPDATE quiz SET name = ?, description = ?, isActive = ?`. */
  function Rewritten(name: string, description: Option<string>, isActive: Option<bool>): Quiz -> Quiz {
    (q: Quiz) => q.(name := name, description := description, isActive := isActive)
  }

  function Retexted(text: string): Card -> Card {
    (c: Card) => c.(textDescription := text)
  }

  function Renamed(name: string): Category -> Category {
    (c: Category) => c.(name := name)
  }

  const FruitQuizName := "Quiz Fruits et Légumes"
  const FruitQuizDescription := "Associez chaque aliment à sa catégorie correcte."
  const AnimalQuizName := "Quiz Animaux"
  const AnimalQuizDescription := "Classifiez les animaux selon leur habitat naturel."
  const FruitCategories := ["Fruit", "Légume"]
  const FruitCards := ["Orange", "Tomate", "Pomme", "Carotte", "Banane", "Brocoli"]
  const AnimalCategories := ["Terrestres", "Aquatiques", "Aériens"]
  const AnimalCards := ["Lion", "Dauphin", "Aigle", "Éléphant", "Requin", "Faucon"]

  /** The five seed categories, numbered from `firstId`: the fruit quiz's two,
      then the animal quiz's three. */
  function SampleCategoryRows(firstId: int, fruitQuiz: int, animalQuiz: int, now: Timestamp): (r: seq<Category>)
    ensures |r| == 5
    ensures forall i :: 0 <= i < |r| ==> r[i].quizId == fruitQuiz || r[i].quizId == animalQuiz
  {
    CategoryRows(firstId, FruitCategories, fruitQuiz, now) + CategoryRows(firstId + 2, AnimalCategories, animalQuiz, now)
  }

  /** The twelve seed cards, numbered from `firstId`: the fruit quiz's six,
      then the animal quiz's six. */
  function SampleCardRows(firstId: int, fruitQuiz: int, animalQuiz: int, now: Timestamp): (r: seq<Card>)
    ensures |r| == 12
    ensures forall i :: 0 <= i < |r| ==> r[i].quizId == fruitQuiz || r[i].quizId == animalQuiz
  {
    CardRows(firstId, FruitCards, fruitQuiz, now) + CardRows(firstId + 6, AnimalCards, animalQuiz, now)
  }

  /** The two seed quizzes, numbered from `firstId`. */
  function SampleQuizzes(firstId: int, now: Timestamp): seq<Quiz> {
    [NewQuiz(firstId, FruitQuizName, Some(FruitQuizDescription), Some(true), now),
     NewQuiz(firstId + 1, AnimalQuizName, Some(AnimalQuizDescription), Some(true), now)]
  }

  /** Rows that name one of the two seed quizzes' ids all find their quiz
      among the seed quizzes. */
  lemma SeedReferencesResolve<T>(firstId: int, now: Timestamp, rows: seq<T>, from: nat, quizOf: T -> int)
    requires forall i :: from <= i < |rows| ==> quizOf(rows[i]) == firstId || quizOf(rows[i]) == firstId + 1
    ensures forall i :: from <= i < |rows| ==> FindQuiz(SampleQuizzes(firstId, now), quizOf(rows[i])).Some?
  {
    var qs := SampleQuizzes(firstId, now);
    assert qs[0].id == firstId && qs[1].id == firstId + 1;
    assert FindQuiz(qs, firstId).Some? && FindQuiz(qs, firstId + 1).Some?;
  }

  class Database {
    var quizzes: seq<Quiz>
    var cards: seq<Card>
    var categories: seq<Category>
    var submissions: seq<Submission>
    /** The sqlite_sequence entries: the largest id each table has handed out. */
    var quizSeq: nat
    var cardSeq: nat
    var categorySeq: nat
    var submissionSeq: nat

    /** Each table is in rowid order, and its ids are below its sequence. */
    ghost predicate Valid()
      reads this
    {
      && Keyed(quizzes, QuizIdOf, quizSeq)
      && Keyed(cards, CardIdOf, cardSeq)
      && Keyed(categories, CategoryIdOf, categorySeq)
      && Keyed(submissions, SubmissionIdOf, submissionSeq)
    }

    function Snapshot(): Tables
      reads this
    {
      Tables(quizzes, cards, categories, submissions)
    }

    /** A fresh file after the four CREATE TABLE IF NOT EXISTS statements. */
    constructor ()
      ensures Valid()
      ensures quizzes == [] && cards == [] && categories == [] && submissions == []
      ensures quizSeq == 0 && cardSeq == 0 && categorySeq == 0 && submissionSeq == 0
    {
      quizzes, cards, categories, submissions := [], [], [], [];
      quizSeq, cardSeq, categorySeq, submissionSeq := 0, 0, 0, 0;
    }

    /** POST /quiz. `isActive` defaults to true in the route itself. */
    method CreateQuiz(name: Option<string>, description: Option<string>, isActive: Option<bool>, now: Timestamp)
      returns (r: Result<Quiz, Failure>)
      requires Valid()
      modifies this
      ensures Valid()
      ensures name.None? ==> r == Failure(NotNullViolated("name")) && unchanged(this)
      ensures name.Some? ==> && r == Success(NewQuiz(old(quizSeq) + 1, name.value, description, isActive, now))
                             && quizSeq == old(quizSeq) + 1
                             && quizzes == old(quizzes) + [r.value]
      ensures r.Success? ==> r.value.isActive == Some(isActive.GetOr(true))
      ensures cards == old(cards) && categories == old(categories) && submissions == old(submissions)
      ensures cardSeq == old(cardSeq) && categorySeq == old(categorySeq) && submissionSeq == old(submissionSeq)
    {
      if name.None? {
        return Failure(NotNullViolated("name"));
      }
      var q := NewQuiz(quizSeq + 1, name.value, description, Some(isActive.GetOr(true)), now);
      AppendKeyed(quizzes, [q], QuizIdOf, quizSeq);
      quizzes := quizzes + [q];
      quizSeq := quizSeq + 1;
      r := Success(q);
    }

    /** PUT /quiz/:id. A missing `isActive` is stored as NULL; a missing name
        fails only when a row matches. */
    method UpdateQuiz(id: int, name: Option<string>, description: Option<string>, isActive: Option<bool>)
      returns (r: Option<Failure>)
      requires Valid()
      modifies this
      ensures Valid()
      ensures r.Some? <==> name.None? && FindQuiz(old(quizzes), id).Some?
      ensures r.Some? ==> r.value == NotNullViolated("name") && unchanged(this)
      ensures r.None? ==> quizzes == ReplaceWhere(old(quizzes), QuizIdOf, id, Rewritten(name.GetOr(""), description, isActive))
      ensures cards == old(cards) && categories == old(categories) && submissions == old(submissions)
      ensures quizSeq == old(quizSeq) && cardSeq == old(cardSeq)
      ensures categorySeq == old(categorySeq) && submissionSeq == old(submissionSeq)
    {
      var found := FindQuiz(quizzes, id);
      if name.None? && found.Some? {
        return Some(NotNullViolated("name"));
      }
      var f := Rewritten(name.GetOr(""), description, isActive);
      if found.Some? {
        ReplaceWhereKeepsKeys(quizzes, QuizIdOf, id, f, quizSeq, found.value);
      } else {
        ReplaceWhereNoMatch(quizzes, QuizIdOf, id, f);
      }
      quizzes := ReplaceWhere(quizzes, QuizIdOf, id, f);
      r := None;
    }

    /** PATCH /quiz/:id/toggle, answering with the row read back (none for an
        unknown id). */
    method ToggleQuiz(id: int) returns (r: Option<Quiz>)
      requires Valid()
      modifies this
      ensures Valid()
      ensures quizzes == ReplaceWhere(old(quizzes), QuizIdOf, id, Toggled)
      ensures r == FindQuiz(quizzes, id)
      ensures r.Some? <==> FindQuiz(old(quizzes), id).Some?
      ensures r.Some? ==> r.value == Toggled(FindQuiz(old(quizzes), id).value)
      ensures cards == old(cards) && categories == old(categories) && submissions == old(submissions)
      ensures quizSeq == old(quizSeq) && cardSeq == old(cardSeq)
      ensures categorySeq == old(categorySeq) && submissionSeq == old(submissionSeq)
    {
      var found := FindQuiz(quizzes, id);
      if found.Some? {
        ReplaceWhereKeepsKeys(quizzes, QuizIdOf, id, Toggled, quizSeq, found.value);
      } else {
        ReplaceWhereNoMatch(quizzes, QuizIdOf, id, Toggled);
      }
      quizzes := ReplaceWhere(quizzes, QuizIdOf, id, Toggled);
      r := FindQuiz(quizzes, id);
    }

    /** DELETE /quiz/:id. The quiz's cards and categories stay. */
    method DeleteQuiz(id: int)
      requires Valid()
      modifies this
      ensures Valid()
      ensures quizzes == WithoutQuiz(old(quizzes), id)
      ensures cards == old(cards) && categories == old(categories) && submissions == old(submissions)
      ensures quizSeq == old(quizSeq) && cardSeq == old(cardSeq)
      ensures categorySeq == old(categorySeq) && submissionSeq == old(submissionSeq)
    {
      FilterKeepsKeyed(quizzes, (q: Quiz) => q.id != id, QuizIdOf, quizSeq);
      quizzes := WithoutQuiz(quizzes, id);
    }

    /** POST /cards. The columns are checked in table order; the quiz is not
        checked to exist. */
    method CreateCard(text: Option<string>, quizId: Option<int>, now: Timestamp)
      returns (r: Result<Card, Failure>)
      requires Valid()
      modifies this
      ensures Valid()
      ensures text.None? ==> r == Failure(NotNullViolated("text_description")) && unchanged(this)
      ensures text.Some? && quizId.None? ==> r == Failure(NotNullViolated("quiz_id")) && unchanged(this)
      ensures text.Some? && quizId.Some? ==>
                && r == Success(Card(old(cardSeq) + 1, text.value, quizId.value, now))
                && cardSeq == old(cardSeq) + 1
                && cards == old(cards) + [r.value]
      ensures quizzes == old(quizzes) && categories == old(categories) && submissions == old(submissions)
      ensures quizSeq == old(quizSeq) && categorySeq == old(categorySeq) && submissionSeq == old(submissionSeq)
    {
      if text.None? {
        return Failure(NotNullViolated("text_description"));
      }
      if quizId.None? {
        return Failure(NotNullViolated("quiz_id"));
      }
      var c := Card(cardSeq + 1, text.value, quizId.value, now);
      AppendKeyed(cards, [c], CardIdOf, cardSeq);
      cards := cards + [c];
      cardSeq := cardSeq + 1;
      r := Success(c);
    }

    /** PUT /cards/:id: only the text changes. */
    method UpdateCard(id: int, text: Option<string>) returns (r: Option<Failure>)
      requires Valid()
      modifies this
      ensures Valid()
      ensures r.Some? <==> text.None? && FindCard(old(cards), id).Some?
      ensures r.Some? ==> r.value == NotNullViolated("text_description") && unchanged(this)
      ensures r.None? ==> cards == ReplaceWhere(old(cards), CardIdOf, id, Retexted(text.GetOr("")))
      ensures quizzes == old(quizzes) && categories == old(categories) && submissions == old(submissions)
      ensures quizSeq == old(quizSeq) && cardSeq == old(cardSeq)
      ensures categorySeq == old(categorySeq) && submissionSeq == old(submissionSeq)
    {
      var found := FindCard(cards, id);
      if text.None? && found.Some? {
        return Some(NotNullViolated("text_description"));
      }
      var f := Retexted(text.GetOr(""));
      if found.Some? {
        ReplaceWhereKeepsKeys(cards, CardIdOf, id, f, cardSeq, found.value);
      } else {
        ReplaceWhereNoMatch(cards, CardIdOf, id, f);
      }
      cards := ReplaceWhere(cards, CardIdOf, id, f);
      r := None;
    }

    /** DELETE /cards/:id, which succeeds whether or not a row matched; the
        card's submissions stay. */
    method DeleteCard(id: int)
      requires Valid()
      modifies this
      ensures Valid()
      ensures cards == WithoutCard(old(cards), id)
      ensures quizzes == old(quizzes) && categories == old(categories) && submissions == old(submissions)
      ensures quizSeq == old(quizSeq) && cardSeq == old(cardSeq)
      ensures categorySeq == old(categorySeq) && submissionSeq == old(submissionSeq)
    {
      FilterKeepsKeyed(cards, (c: Card) => c.id != id, CardIdOf, cardSeq);
      cards := WithoutCard(cards, id);
    }

    /** POST /categories. */
    method CreateCategory(name: Option<string>, quizId: Option<int>, now: Timestamp)
      returns (r: Result<Category, Failure>)
      requires Valid()
      modifies this
      ensures Valid()
      ensures name.None? ==> r == Failure(NotNullViolated("name")) && unchanged(this)
      ensures name.Some? && quizId.None? ==> r == Failure(NotNullViolated("quiz_id")) && unchanged(this)
      ensures name.Some? && quizId.Some? ==>
                && r == Success(Category(old(categorySeq) + 1, name.value, quizId.value, now))
                && categorySeq == old(categorySeq) + 1
                && categories == old(categories) + [r.value]
      ensures quizzes == old(quizzes) && cards == old(cards) && submissions == old(submissions)
      ensures quizSeq == old(quizSeq) && cardSeq == old(cardSeq) && submissionSeq == old(submissionSeq)
    {
      if name.None? {
        return Failure(NotNullViolated("name"));
      }
      if quizId.None? {
        return Failure(NotNullViolated("quiz_id"));
      }
      var c := Category(categorySeq + 1, name.value, quizId.value, now);
      AppendKeyed(categories, [c], CategoryIdOf, categorySeq);
      categories := categories + [c];
      categorySeq := categorySeq + 1;
      r := Success(c);
    }

    /** PUT /categories/:id: only the name changes. */
    method UpdateCategory(id: int, name: Option<string>) returns (r: Option<Failure>)
      requires Valid()
      modifies this
      ensures Valid()
      ensures r.Some? <==> name.None? && FindCategory(old(categories), id).Some?
      ensures r.Some? ==> r.value == NotNullViolated("name") && unchanged(this)
      ensures r.None? ==> categories == ReplaceWhere(old(categories), CategoryIdOf, id, Renamed(name.GetOr("")))
      ensures quizzes == old(quizzes) && cards == old(cards) && submissions == old(submissions)
      ensures quizSeq == old(quizSeq) && cardSeq == old(cardSeq)
      ensures categorySeq == old(categorySeq) && submissionSeq == old(submissionSeq)
    {
      var found := FindCategory(categories, id);
      if name.None? && found.Some? {
        return Some(NotNullViolated("name"));
      }
      var f := Renamed(name.GetOr(""));
      if found.Some? {
        ReplaceWhereKeepsKeys(categories, CategoryIdOf, id, f, categorySeq, found.value);
      } else {
        ReplaceWhereNoMatch(categories, CategoryIdOf, id, f);
      }
      categories := ReplaceWhere(categories, CategoryIdOf, id, f);
      r := None;
    }

    /** DELETE /categories/:id, which succeeds whether or not a row matched. */
    method DeleteCategory(id: int)
      requires Valid()
      modifies this
      ensures Valid()
      ensures categories == WithoutCategory(old(categories), id)
      ensures quizzes == old(quizzes) && cards == old(cards) && submissions == old(submissions)
      ensures quizSeq == old(quizSeq) && cardSeq == old(cardSeq)
      ensures categorySeq == old(categorySeq) && submissionSeq == old(submissionSeq)
    {
      FilterKeepsKeyed(categories, (c: Category) => c.id != id, CategoryIdOf, categorySeq);
      categories := WithoutCategory(categories, id);
    }

    /** POST /submissions: one new pending row; the card and category are not
        checked to exist. */
    method CreateSubmission(userName: Option<string>, cardId: Option<int>, categoryId: Option<int>, now: Timestamp)
      returns (r: Result<Submission, Failure>)
      requires Valid()
      modifies this
      ensures Valid()
      ensures userName.None? ==> r == Failure(NotNullViolated("user_name")) && unchanged(this)
      ensures userName.Some? && cardId.None? ==> r == Failure(NotNullViolated("card_id")) && unchanged(this)
      ensures userName.Some? && cardId.Some? && categoryId.None? ==>
                r == Failure(NotNullViolated("category_id")) && unchanged(this)
      ensures userName.Some? && cardId.Some? && categoryId.Some? ==>
                && r == Success(NewSubmission(old(submissionSeq) + 1, userName.value, cardId.value,
                                              categoryId.value, now, None))
                && submissionSeq == old(submissionSeq) + 1
                && submissions == old(submissions) + [r.value]
      ensures r.Success? ==> r.value.status == Pending
      ensures quizzes == old(quizzes) && cards == old(cards) && categories == old(categories)
      ensures quizSeq == old(quizSeq) && cardSeq == old(cardSeq) && categorySeq == old(categorySeq)
    {
      if userName.None? {
        return Failure(NotNullViolated("user_name"));
      }
      if cardId.None? {
        return Failure(NotNullViolated("card_id"));
      }
      if categoryId.None? {
        return Failure(NotNullViolated("category_id"));
      }
      var s := NewSubmission(submissionSeq + 1, userName.value, cardId.value, categoryId.value, now, None);
      AppendKeyed(submissions, [s], SubmissionIdOf, submissionSeq);
      submissions := submissions + [s];
      submissionSeq := submissionSeq + 1;
      r := Success(s);
    }

    /** PATCH /submissions/:id/status. Any other target is refused before the
        store is touched; a valid one is written whatever the row held, and
        an unknown id still succeeds. */
    method UpdateSubmissionStatus(id: int, status: Option<string>) returns (r: Result<Status, Failure>)
      requires Valid()
      modifies this
      ensures Valid()
      ensures r.Failure? <==> ParseTarget(status).None?
      ensures r.Failure? ==> r.error == InvalidStatus && HttpStatus(r.error) == 400 && unchanged(this)
      ensures r.Success? ==> && r.value == ParseTarget(status).value
                             && submissions == SetStatus(old(submissions), id, r.value)
      ensures quizzes == old(quizzes) && cards == old(cards) && categories == old(categories)
      ensures quizSeq == old(quizSeq) && cardSeq == old(cardSeq)
      ensures categorySeq == old(categorySeq) && submissionSeq == old(submissionSeq)
    {
      var target := ParseTarget(status);
      if target.None? {
        return Failure(InvalidStatus);
      }
      var st := target.value;
      var found := FindById(submissions, SubmissionIdOf, id);
      if found.Some? {
        SetStatusKeepsKeys(submissions, id, st, submissionSeq, found.value);
      } else {
        SetStatusUnknownId(submissions, id, st);
      }
      submissions := SetStatus(submissions, id, st);
      r := Success(st);
    }

    /** One multi-row INSERT INTO card. */
    method InsertCards(texts: seq<string>, quizId: int, now: Timestamp)
      requires Valid()
      modifies this
      ensures Valid()
      ensures cards == old(cards) + CardRows(old(cardSeq) + 1, texts, quizId, now)
      ensures forall i :: old(|cards|) <= i < |cards| ==> cards[i].quizId == quizId
      ensures cardSeq == old(cardSeq) + |texts|
      ensures quizzes == old(quizzes) && categories == old(categories) && submissions == old(submissions)
      ensures quizSeq == old(quizSeq) && categorySeq == old(categorySeq) && submissionSeq == old(submissionSeq)
    {
      var rows := CardRows(cardSeq + 1, texts, quizId, now);
      AppendKeyed(cards, rows, CardIdOf, cardSeq);
      cards := cards + rows;
      cardSeq := cardSeq + |texts|;
    }

    /** One multi-row INSERT INTO category. */
    method InsertCategories(names: seq<string>, quizId: int, now: Timestamp)
      requires Valid()
      modifies this
      ensures Valid()
      ensures categories == old(categories) + CategoryRows(old(categorySeq) + 1, names, quizId, now)
      ensures forall i :: old(|categories|) <= i < |categories| ==> categories[i].quizId == quizId
      ensures categorySeq == old(categorySeq) + |names|
      ensures quizzes == old(quizzes) && cards == old(cards) && submissions == old(submissions)
      ensures quizSeq == old(quizSeq) && cardSeq == old(cardSeq) && submissionSeq == old(submissionSeq)
    {
      var rows := CategoryRows(categorySeq + 1, names, quizId, now);
      AppendKeyed(categories, rows, CategoryIdOf, categorySeq);
      categories := categories + rows;
      categorySeq := categorySeq + |names|;
    }

    /** The seed categories, then the seed cards, of one quiz. */
    method SeedQuizCatalog(names: seq<string>, texts: seq<string>, quizId: int, now: Timestamp)
      requires Valid()
      modifies this
      ensures Valid()
      ensures categories == old(categories) + CategoryRows(old(categorySeq) + 1, names, quizId, now)
      ensures cards == old(cards) + CardRows(old(cardSeq) + 1, texts, quizId, now)
      ensures forall i :: old(|cards|) <= i < |cards| ==> cards[i].quizId == quizId
      ensures forall i :: old(|categories|) <= i < |categories| ==> categories[i].quizId == quizId
      ensures categorySeq == old(categorySeq) + |names| && cardSeq == old(cardSeq) + |texts|
      ensures quizzes == old(quizzes) && submissions == old(submissions)
      ensures quizSeq == old(quizSeq) && submissionSeq == old(submissionSeq)
    {
      InsertCategories(names, quizId, now);
      InsertCards(texts, quizId, now);
    }

    /** The seed categories and cards, attached to the given quiz ids, in the
        order the statements are issued. */
    method InsertSampleCatalog(fruitQuiz: int, animalQuiz: int, now: Timestamp)
      requires Valid()
      modifies this
      ensures Valid()
      ensures categories == old(categories) + SampleCategoryRows(old(categorySeq) + 1, fruitQuiz, animalQuiz, now)
      ensures cards == old(cards) + SampleCardRows(old(cardSeq) + 1, fruitQuiz, animalQuiz, now)
      ensures forall i :: old(|cards|) <= i < |cards| ==> cards[i].quizId == fruitQuiz || cards[i].quizId == animalQuiz
      ensures forall i :: old(|categories|) <= i < |categories| ==>
                categories[i].quizId == fruitQuiz || categories[i].quizId == animalQuiz
      ensures categorySeq == old(categorySeq) + 5 && cardSeq == old(cardSeq) + 12
      ensures quizzes == old(quizzes) && submissions == old(submissions)
      ensures quizSeq == old(quizSeq) && submissionSeq == old(submissionSeq)
    {
      SeedQuizCatalog(FruitCategories, FruitCards, fruitQuiz, now);
      SeedQuizCatalog(AnimalCategories, AnimalCards, animalQuiz, now);
    }

    /** The two seed quizzes, with the next two ids. */
    method InsertSampleQuizzes(now: Timestamp) returns (fruitQuiz: int, animalQuiz: int)
      requires Valid()
      modifies this
      ensures Valid()
      ensures fruitQuiz == old(quizSeq) + 1 && animalQuiz == old(quizSeq) + 2
      ensures quizzes == old(quizzes) + SampleQuizzes(old(quizSeq) + 1, now)
      ensures quizSeq == old(quizSeq) + 2
      ensures cards == old(cards) && categories == old(categories) && submissions == old(submissions)
      ensures cardSeq == old(cardSeq) && categorySeq == old(categorySeq) && submissionSeq == old(submissionSeq)
    {
      var rows := SampleQuizzes(quizSeq + 1, now);
      AppendKeyed(quizzes, rows, QuizIdOf, quizSeq);
      quizzes := quizzes + rows;
      fruitQuiz, animalQuiz := quizSeq + 1, quizSeq + 2;
      quizSeq := quizSeq + 2;
    }

    /** insertSampleData as written: the seed cards and categories name quiz
        ids 1 and 2, whatever ids the seed quizzes were given. */
    method InsertSampleDataAsWritten(now: Timestamp)
      requires Valid()
      modifies this
      ensures Valid()
      ensures old(|quizzes|) != 0 ==> unchanged(this)
      ensures old(|quizzes|) == 0 ==>
                forall i :: old(|cards|) <= i < |cards| ==> cards[i].quizId == 1 || cards[i].quizId == 2
      ensures old(|quizzes|) == 0 ==>
                forall i :: old(|categories|) <= i < |categories| ==> categories[i].quizId == 1 || categories[i].quizId == 2
      ensures old(|quizzes|) == 0 ==>
                && quizzes == SampleQuizzes(old(quizSeq) + 1, now)
                && categories == old(categories) + SampleCategoryRows(old(categorySeq) + 1, 1, 2, now)
                && cards == old(cards) + SampleCardRows(old(cardSeq) + 1, 1, 2, now)
      ensures old(|quizzes|) == 0 ==>
                quizSeq == old(quizSeq) + 2 && categorySeq == old(categorySeq) + 5 && cardSeq == old(cardSeq) + 12
      ensures submissions == old(submissions) && submissionSeq == old(submissionSeq)
    {
      if |quizzes| == 0 {
        var _, _ := InsertSampleQuizzes(now);
        InsertSampleCatalog(1, 2, now);
      }
    }

    /** insertSampleData with the seed catalog attached to the ids the seed
        quizzes were actually given: the seed runs only on an empty quiz
        table, and afterwards every seed card and category belongs to an
        existing seed quiz. */
    method InsertSampleData(now: Timestamp)
      requires Valid()
      modifies this
      ensures Valid()
      ensures old(|quizzes|) != 0 ==> unchanged(this)
      ensures old(|quizzes|) == 0 ==>
                && quizzes == SampleQuizzes(old(quizSeq) + 1, now)
                && categories == old(categories) + SampleCategoryRows(old(categorySeq) + 1, old(quizSeq) + 1, old(quizSeq) + 2, now)
                && cards == old(cards) + SampleCardRows(old(cardSeq) + 1, old(quizSeq) + 1, old(quizSeq) + 2, now)
      ensures old(|quizzes|) == 0 ==>
                forall i :: old(|cards|) <= i < |cards| ==>
                  cards[i].quizId == old(quizSeq) + 1 || cards[i].quizId == old(quizSeq) + 2
      ensures old(|quizzes|) == 0 ==>
                forall i :: old(|categories|) <= i < |categories| ==>
                  categories[i].quizId == old(quizSeq) + 1 || categories[i].quizId == old(quizSeq) + 2
      ensures old(|quizzes|) == 0 ==>
                quizSeq == old(quizSeq) + 2 && categorySeq == old(categorySeq) + 5 && cardSeq == old(cardSeq) + 12
      ensures submissions == old(submissions) && submissionSeq == old(submissionSeq)
    {
      if |quizzes| == 0 {
        var fruitQuiz, animalQuiz := InsertSampleQuizzes(now);
        InsertSampleCatalog(fruitQuiz, animalQuiz, now);
      }
    }
  }

  /** Deleting quizzes 1 and 2 empties a quiz table that holds just the
      seed quizzes numbered from 1. */
  lemma WipeSampleQuizzes(now: Timestamp)
    ensures WithoutQuiz(WithoutQuiz(SampleQuizzes(1, now), 1), 2) == []
  {
  }

  /** A quiz whose id no card and no category names comes back from
      GET /quiz/:id with no cards and no categories. */
  lemma UnreferencedQuizIsEmpty(t: Tables, q: Quiz)
    requires IdsIncreasing(t.quizzes, QuizIdOf) && q in t.quizzes
    requires forall i :: 0 <= i < |t.cards| ==> t.cards[i].quizId != q.id
    requires forall i :: 0 <= i < |t.categories| ==> t.categories[i].quizId != q.id
    ensures GetQuiz(t, q.id) == Success(QuizDetail(q, [], []))
  {
    FindByIdIsUnique(t.quizzes, QuizIdOf, q);
    FilterNoneKept(t.cards, (c: Card) => c.quizId == q.id);
    FilterNoneKept(t.categories, (c: Category) => c.quizId == q.id);
  }

  /** Appending the seed cards for `quizId` (the fruit quiz) and `other` to a
      table none of whose cards belongs to `quizId` gives that quiz exactly the
      six fruit cards. */
  lemma SeededCardsOfQuiz(cards: seq<Card>, firstId: int, quizId: int, other: int, now: Timestamp)
    requires quizId != other
    requires forall i :: 0 <= i < |cards| ==> cards[i].quizId != quizId
    ensures CardsOfQuiz(cards + SampleCardRows(firstId, quizId, other, now), quizId) == CardRows(firstId, FruitCards, quizId, now)
  {
    KeepMiddle(cards, CardRows(firstId, FruitCards, quizId, now), CardRows(firstId + 6, AnimalCards, other, now),
               (c: Card) => c.quizId == quizId);
  }

  /** The same for the seed categories: the fruit quiz gets exactly its two. */
  lemma SeededCategoriesOfQuiz(categories: seq<Category>, firstId: int, quizId: int, other: int, now: Timestamp)
    requires quizId != other
    requires forall i :: 0 <= i < |categories| ==> categories[i].quizId != quizId
    ensures CategoriesOfQuiz(categories + SampleCategoryRows(firstId, quizId, other, now), quizId)
              == CategoryRows(firstId, FruitCategories, quizId, now)
  {
    KeepMiddle(categories, CategoryRows(firstId, FruitCategories, quizId, now),
               CategoryRows(firstId + 2, AnimalCategories, other, now), (c: Category) => c.quizId == quizId);
  }

  /** A fresh database after one start-up seed: quizzes 1 and 2, and every
      card and category attached to one of them. */
  method SeededDatabase(now: Timestamp) returns (db: Database)
    ensures fresh(db) && db.Valid()
    ensures db.quizzes == SampleQuizzes(1, now) && db.quizSeq == 2
    ensures db.categorySeq == 5 && db.cardSeq == 12
    ensures forall i :: 0 <= i < |db.cards| ==> db.cards[i].quizId == 1 || db.cards[i].quizId == 2
    ensures forall i :: 0 <= i < |db.categories| ==> db.categories[i].quizId == 1 || db.categories[i].quizId == 2
  {
    db := new Database();
    db.InsertSampleData(now);
  }

  /** The seeded database stripped of both sample quizzes through
      DELETE /quiz/:id; their cards and categories stay behind. */
  method SeedThenWipe(now: Timestamp) returns (db: Database)
    ensures fresh(db) && db.Valid()
    ensures db.quizzes == [] && db.quizSeq == 2
    ensures db.categorySeq == 5 && db.cardSeq == 12
    ensures forall i :: 0 <= i < |db.cards| ==> db.cards[i].quizId == 1 || db.cards[i].quizId == 2
    ensures forall i :: 0 <= i < |db.categories| ==> db.categories[i].quizId == 1 || db.categories[i].quizId == 2
  {
    db := SeededDatabase(now);
    db.DeleteQuiz(1);
    db.DeleteQuiz(2);
    WipeSampleQuizzes(now);
  }

  /** Restarting after the wipe with the seed as written: the new fruit quiz
      gets id 3, but the new catalog is attached to ids 1 and 2, so
      GET /quiz/3 answers with no cards and no categories. */
  method ReseedAfterWipeAsWritten(now: Timestamp) returns (detail: Result<QuizDetail, Failure>)
    ensures detail.Success?
    ensures detail.value.quiz.id == 3 && detail.value.quiz.name == FruitQuizName
    ensures detail.value.cards == [] && detail.value.categories == []
  {
    var db := SeedThenWipe(now);
    db.InsertSampleDataAsWritten(now);
    var t := db.Snapshot();
    assert t.quizzes[0].id == 3;
    UnreferencedQuizIsEmpty(t, t.quizzes[0]);
    detail := GetQuiz(t, 3);
  }

  /** The same restart with the corrected seed: quiz 3 comes back with its
      six cards (ids 13 to 18) and its two categories (ids 6 and 7). */
  method ReseedAfterWipe(now: Timestamp) returns (detail: Result<QuizDetail, Failure>)
    ensures detail.Success?
    ensures detail.value.quiz.id == 3 && detail.value.quiz.name == FruitQuizName
    ensures detail.value.cards == CardRows(13, FruitCards, 3, now)
    ensures detail.value.categories == CategoryRows(6, FruitCategories, 3, now)
  {
    var db := SeedThenWipe(now);
    var before := db.Snapshot();
    db.InsertSampleData(now);
    var t := db.Snapshot();
    SeededCardsOfQuiz(before.cards, 13, 3, 4, now);
    SeededCategoriesOfQuiz(before.categories, 6, 3, 4, now);
    assert t.quizzes[0].id == 3;
    FindByIdIsUnique(t.quizzes, QuizIdOf, t.quizzes[0]);
    detail := GetQuiz(t, 3);
  }
}
