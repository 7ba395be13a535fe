/** The four tables of the SQLite store (server/database.js): their rows, the
    domain of submission statuses, the column defaults, the AUTOINCREMENT keys,
    and the engine failures the routes pass on. */
module Schema {
  import opened Wrappers
  import opened Sequences

  /** A DATETIME value. The model treats timestamps as opaque values compared in
      time order; equal timestamps are possible. */
  type Timestamp = int

  /** The values the CHECK constraint on `submission.status` admits. */
  datatype Status = Pending | Approved | Rejected

  /** The text stored in the `status` column. */
  function StatusText(s: Status): string {
    match s
    case Pending => "pending"
    case Approved => "approved"
    case Rejected => "rejected"
  }

  /** `status IN ('pending', 'approved', 'rejected')`. */
  predicate InStatusDomain(t: string) {
    t == "pending" || t == "approved" || t == "rejected"
  }

  /** Reads a status text back; only texts in the CHECK domain have a status. */
  function ParseStatus(t: string): (r: Option<Status>)
    ensures r.Some? <==> InStatusDomain(t)
    ensures r.Some? ==> StatusText(r.value) == t
  {
    if t == "pending" then Some(Pending)
    else if t == "approved" then Some(Approved)
    else if t == "rejected" then Some(Rejected)
    else None
  }

  /** Every status the model stores passes the CHECK constraint, and its text
      reads back as the same status. */
  lemma StatusTextRoundTrip(s: Status)
    ensures InStatusDomain(StatusText(s))
    ensures ParseStatus(StatusText(s)) == Some(s)
  {
  }

  /** A `quiz` row. `description` is nullable; `isActive` is a nullable BOOLEAN
      (None is SQL NULL). */
  datatype Quiz = Quiz(id: int, name: string, description: Option<string>,
                       isActive: Option<bool>, createdAt: Timestamp)

  /** A `card` row; `quiz_id` is a NOT NULL reference to a quiz. */
  datatype Card = Card(id: int, textDescription: string, quizId: int, createdAt: Timestamp)

  /** A `category` row; `quiz_id` is a NOT NULL reference to a quiz. */
  datatype Category = Category(id: int, name: string, quizId: int, createdAt: Timestamp)

  /** A `submission` row; it references one card and one category. */
  datatype Submission = Submission(id: int, userName: string, cardId: int, categoryId: int,
                                   timestamp: Timestamp, status: Status)

  /** The whole store at one instant. */
  datatype Tables = Tables(quizzes: seq<Quiz>, cards: seq<Card>,
                           categories: seq<Category>, submissions: seq<Submission>)

  function QuizIdOf(q: Quiz): int { q.id }
  function CardIdOf(c: Card): int { c.id }
  function CategoryIdOf(c: Category): int { c.id }
  function SubmissionIdOf(s: Submission): int { s.id }

  /** A quiz row as the create route's INSERT builds it: the route's
      destructuring default turns a missing `isActive` into `true` (stored as 1)
      before the INSERT, and `created_at` falls back to CURRENT_TIMESTAMP. */
  function NewQuiz(id: int, name: string, description: Option<string>,
                   isActive: Option<bool>, now: Timestamp): (q: Quiz)
    ensures q.id == id && q.name == name && q.description == description && q.createdAt == now
    ensures isActive.None? ==> q.isActive == Some(true)
    ensures isActive.Some? ==> q.isActive == isActive
  {
    Quiz(id, name, description, Some(isActive.GetOr(true)), now)
  }

  /** A submission row as an INSERT builds it: `status` falls back to DEFAULT
      'pending' and `timestamp` to CURRENT_TIMESTAMP. */
  function NewSubmission(id: int, userName: string, cardId: int, categoryId: int,
                         now: Timestamp, status: Option<Status>): (s: Submission)
    ensures s.id == id && s.userName == userName && s.cardId == cardId
    ensures s.categoryId == categoryId && s.timestamp == now
    ensures status.None? ==> s.status == Pending
    ensures status.Some? ==> s.status == status.value
  {
    Submission(id, userName, cardId, categoryId, now, status.GetOr(Pending))
  }

  /** The rows of a multi-row `INSERT INTO card (text_description, quiz_id)`,
      numbered from `firstId`: one row per text in the order the texts are
      listed, each taking the next key, all belonging to `quizId` and stamped
      with the same CURRENT_TIMESTAMP. */
  function CardRows(firstId: int, texts: seq<string>, quizId: int, now: Timestamp): (r: seq<Card>)
    ensures |r| == |texts|
    ensures forall i :: 0 <= i < |r| ==> r[i].id == firstId + i && r[i].textDescription == texts[i]
    ensures forall c :: c in r ==> c.quizId == quizId && c.createdAt == now
    ensures IdsIncreasing(r, CardIdOf)
  {
    seq(|texts|, i requires 0 <= i < |texts| => Card(firstId + i, texts[i], quizId, now))
  }

  /** The rows of a multi-row `INSERT INTO category (name, quiz_id)`, numbered
      from `firstId` in the same way. */
  function CategoryRows(firstId: int, names: seq<string>, quizId: int, now: Timestamp): (r: seq<Category>)
    ensures |r| == |names|
    ensures forall i :: 0 <= i < |r| ==> r[i].id == firstId + i && r[i].name == names[i]
    ensures forall c :: c in r ==> c.quizId == quizId && c.createdAt == now
    ensures IdsIncreasing(r, CategoryIdOf)
  {
    seq(|names|, i requires 0 <= i < |names| => Category(firstId + i, names[i], quizId, now))
  }

  function FindQuiz(quizzes: seq<Quiz>, id: int): (r: Option<Quiz>)
    ensures r.Some? ==> r.value in quizzes && r.value.id == id
    ensures r.None? <==> forall i :: 0 <= i < |quizzes| ==> quizzes[i].id != id
  {
    FindById(quizzes, QuizIdOf, id)
  }

  function FindCard(cards: seq<Card>, id: int): (r: Option<Card>)
    ensures r.Some? ==> r.value in cards && r.value.id == id
    ensures r.None? <==> forall i :: 0 <= i < |cards| ==> cards[i].id != id
  {
    FindById(cards, CardIdOf, id)
  }

  function FindCategory(categories: seq<Category>, id: int): (r: Option<Category>)
    ensures r.Some? ==> r.value in categories && r.value.id == id
    ensures r.None? <==> forall i :: 0 <= i < |categories| ==> categories[i].id != id
  {
    FindById(categories, CategoryIdOf, id)
  }

  /** `DELETE FROM quiz WHERE id = ?`. Foreign-key enforcement is never switched
      on, so the declared ON DELETE CASCADE does not run: the quiz's cards and
      categories stay behind. */
  function WithoutQuiz(quizzes: seq<Quiz>, id: int): (r: seq<Quiz>)
    ensures forall i :: 0 <= i < |r| ==> r[i].id != id
    ensures forall i :: 0 <= i < |quizzes| ==> (quizzes[i] in r <==> quizzes[i].id != id)
  {
    Filter(quizzes, (q: Quiz) => q.id != id)
  }

  /** `DELETE FROM card WHERE id = ?`, without the declared cascade to submissions. */
  function WithoutCard(cards: seq<Card>, id: int): (r: seq<Card>)
    ensures forall i :: 0 <= i < |r| ==> r[i].id != id
    ensures forall i :: 0 <= i < |cards| ==> (cards[i] in r <==> cards[i].id != id)
  {
    Filter(cards, (c: Card) => c.id != id)
  }

  /** `DELETE FROM category WHERE id = ?`, without the declared cascade to submissions. */
  function WithoutCategory(categories: seq<Category>, id: int): (r: seq<Category>)
    ensures forall i :: 0 <= i < |r| ==> r[i].id != id
    ensures forall i :: 0 <= i < |categories| ==> (categories[i] in r <==> categories[i].id != id)
  {
    Filter(categories, (c: Category) => c.id != id)
  }

  /** Why a route failed, and the HTTP status it answers with. */
  datatype Failure =
    | NotNullViolated(column: string)  // the engine rejects NULL in a NOT NULL column: 500
    | InvalidStatus                    // PATCH /submissions/:id/status with another target: 400
    | QuizNotFound                     // GET /quiz/:id for an unknown id: 404
    | UnsupportedFormat                // POST /export/data with an unknown format: 400

  function HttpStatus(f: Failure): int {
    match f
    case NotNullViolated(_) => 500
    case InvalidStatus => 400
    case QuizNotFound => 404
    case UnsupportedFormat => 400
  }
}
