/** The export listing: the four-way join of submissions with their card,
    category and quiz, the optional quiz and approved-only filters, the order
    by quiz name then time, and the per-format shaping of
    POST /export/data (server/routes/export.js) and GET /submissions/export
    (server/routes/submissions.js). */
module Report {
  import opened Wrappers
  import opened Sequences
  import opened Ordering
  import opened Schema

  /** A submission together with the card, category and quiz it joins to. */
  datatype JoinedRow = JoinedRow(sub: Submission, card: Card, category: Category, quiz: Quiz)

  /** What the inner joins make of one submission: nothing unless its card,
      its category and its card's quiz all exist. */
  function JoinedFor(t: Tables, s: Submission): Option<JoinedRow> {
    match FindCard(t.cards, s.cardId)
    case None => None
    case Some(c) =>
      match FindCategory(t.categories, s.categoryId)
      case None => None
      case Some(cat) =>
        match FindQuiz(t.quizzes, c.quizId)
        case None => None
        case Some(q) => Some(JoinedRow(s, c, cat, q))
  }

  /** `j` is the join of submission `s` with rows of the store. */
  ghost predicate JoinsReport(t: Tables, s: Submission, j: JoinedRow) {
    && j.sub == s
    && FindCard(t.cards, s.cardId) == Some(j.card)
    && FindCategory(t.categories, s.categoryId) == Some(j.category)
    && FindQuiz(t.quizzes, j.card.quizId) == Some(j.quiz)
  }

  function JoinReport(t: Tables): seq<JoinedRow> {
    FilterMap(t.submissions, (s: Submission) => JoinedFor(t, s))
  }

  lemma JoinReportMembers(t: Tables, j: JoinedRow)
    ensures j in JoinReport(t) <==> exists k :: 0 <= k < |t.submissions| && JoinsReport(t, t.submissions[k], j)
  {
    FilterMapMembers(t.submissions, (s: Submission) => JoinedFor(t, s), j);
    if exists k :: 0 <= k < |t.submissions| && JoinsReport(t, t.submissions[k], j) {
      var k :| 0 <= k < |t.submissions| && JoinsReport(t, t.submissions[k], j);
      assert JoinedFor(t, t.submissions[k]) == Some(j);
    }
  }

  /** The `quiz_id` the client sends: absent, a string (a form value, or a
      query-string parameter) or a JSON number. */
  datatype QuizParam = Missing | Text(text: string) | Number(n: int)

  /** JavaScript truthiness of the parameter. */
  predicate Truthy(p: QuizParam) {
    match p
    case Missing => false
    case Text(s) => s != ""
    case Number(n) => n != 0
  }

  /** `quiz_id && quiz_id !== 'all'`. */
  predicate QuizFilterApplies(p: QuizParam) {
    Truthy(p) && p != Text("all")
  }

  predicate IsDigit(c: char) {
    '0' <= c <= '9'
  }

  /** The integer a text of decimal digits denotes, which is what SQLite makes
      of a bound text compared with the INTEGER column `q.id`. */
  function DecimalValue(s: string): (r: Option<nat>)
    ensures r.Some? <==> s != [] && forall i :: 0 <= i < |s| ==> IsDigit(s[i])
    decreases |s|
  {
    if s == [] || !IsDigit(s[|s| - 1]) then None
    else if |s| == 1 then Some((s[0] as int - '0' as int) as nat)
    else
      match DecimalValue(s[..|s| - 1])
      case None => None
      case Some(v) => Some(10 * v + (s[|s| - 1] as int - '0' as int))
  }

  function Digit(d: nat): char
    requires d < 10
  {
    ('0' as int + d) as char
  }

  /** The decimal text of a number, as a select box or a query string carries
      a quiz id: digits, most significant first, without leading zeros. */
  function NatText(n: nat): (s: string)
    ensures s != [] && forall i :: 0 <= i < |s| ==> IsDigit(s[i])
    decreases n
  {
    if n < 10 then [Digit(n)] else NatText(n / 10) + [Digit(n % 10)]
  }

  /** Reading back the decimal text of a number gives the number. */
  lemma {:induction false} NatTextRoundTrip(n: nat)
    ensures DecimalValue(NatText(n)) == Some(n)
    decreases n
  {
    if n >= 10 {
      NatTextRoundTrip(n / 10);
      var s := NatText(n);
      assert s[..|s| - 1] == NatText(n / 10);
    }
  }

  /** `q.id = ?` with the parameter bound. */
  predicate SelectsQuiz(p: QuizParam, quizId: int) {
    match p
    case Missing => false
    case Text(s) => DecimalValue(s) == Some(quizId)
    case Number(n) => n == quizId
  }

  /** A quiz id sent as its decimal text turns the quiz filter on and
      selects exactly that quiz. */
  lemma TextIdSelectsQuiz(id: nat, quizId: int)
    ensures QuizFilterApplies(Text(NatText(id)))
    ensures SelectsQuiz(Text(NatText(id)), quizId) <==> quizId == id
  {
    NatTextRoundTrip(id);
    var s := NatText(id);
    assert IsDigit(s[0]);
  }

  /** The rows the two filters let through, as the route describes them. */
  predicate Wanted(p: QuizParam, status: Option<string>, j: JoinedRow) {
    && (QuizFilterApplies(p) ==> SelectsQuiz(p, j.quiz.id))
    && (status == Some("approved") ==> j.sub.status == Approved)
  }

  /** One entry of the `conditions` array. */
  datatype Condition = QuizIdIs(param: QuizParam) | StatusApproved

  predicate Holds(c: Condition, j: JoinedRow) {
    match c
    case QuizIdIs(p) => SelectsQuiz(p, j.quiz.id)
    case StatusApproved => j.sub.status == Approved
  }

  /** The WHERE clause `conditions.join(' AND ')`, or no WHERE at all when
      there is no condition. */
  predicate SatisfiesAll(conditions: seq<Condition>, j: JoinedRow) {
    forall i :: 0 <= i < |conditions| ==> Holds(conditions[i], j)
  }

  /** The pushes onto `conditions` (with the matching `params`). */
  method BuildConditions(p: QuizParam, status: Option<string>) returns (conditions: seq<Condition>)
    ensures QuizIdIs(p) in conditions <==> QuizFilterApplies(p)
    ensures StatusApproved in conditions <==> status == Some("approved")
    ensures forall i :: 0 <= i < |conditions| ==> conditions[i] == QuizIdIs(p) || conditions[i] == StatusApproved
  {
    conditions := [];
    if Truthy(p) && p != Text("all") {
      conditions := conditions + [QuizIdIs(p)];
    }
    if status == Some("approved") {
      conditions := conditions + [StatusApproved];
    }
  }

  /** Conditions built as BuildConditions builds them select exactly the
      wanted rows: each filter is applied iff its parameter asks for it, and
      both together must hold. */
  lemma ConditionsMeanWanted(conditions: seq<Condition>, p: QuizParam, status: Option<string>, j: JoinedRow)
    requires QuizIdIs(p) in conditions <==> QuizFilterApplies(p)
    requires StatusApproved in conditions <==> status == Some("approved")
    requires forall i :: 0 <= i < |conditions| ==> conditions[i] == QuizIdIs(p) || conditions[i] == StatusApproved
    ensures SatisfiesAll(conditions, j) <==> Wanted(p, status, j)
  {
    if SatisfiesAll(conditions, j) {
      if QuizFilterApplies(p) {
        var i :| 0 <= i < |conditions| && conditions[i] == QuizIdIs(p);
        assert Holds(conditions[i], j);
      }
      if status == Some("approved") {
        var i :| 0 <= i < |conditions| && conditions[i] == StatusApproved;
        assert Holds(conditions[i], j);
      }
    }
  }

  /** One row of the listing. */
  datatype ReportRow = ReportRow(id: int, userName: string, timestamp: Timestamp, status: Status,
                                 description: string, category: string, quizName: string)

  function RowOf(j: JoinedRow): ReportRow {
    ReportRow(j.sub.id, j.sub.userName, j.sub.timestamp, j.sub.status,
              j.card.textDescription, j.category.name, j.quiz.name)
  }

  /** The SELECT list applied to the joined rows: one listing row per
      joined row, in the same order, and nothing else. */
  function Project(js: seq<JoinedRow>): (r: seq<ReportRow>)
    ensures |r| == |js|
    ensures forall i :: 0 <= i < |r| ==> r[i] == RowOf(js[i])
    ensures forall row :: row in r <==> exists j :: j in js && row == RowOf(j)
  {
    seq(|js|, i requires 0 <= i < |js| => RowOf(js[i]))
  }

  /** ORDER BY q.name, s.timestamp ASC. */
  function RowKey(r: ReportRow): Key {
    Key(r.quizName, r.timestamp)
  }

  function Selected(js: seq<JoinedRow>, p: QuizParam, status: Option<string>): seq<JoinedRow> {
    Filter(js, (j: JoinedRow) => Wanted(p, status, j))
  }

  /** The rows of the export listing for the given filters. */
  function Report(t: Tables, p: QuizParam, status: Option<string>): (r: seq<ReportRow>)
    ensures SortedBy(r, RowKey)
    ensures status == Some("approved") ==> forall i :: 0 <= i < |r| ==> r[i].status == Approved
  {
    var rows := Project(Selected(JoinReport(t), p, status));
    SortByKeyMembers(rows, RowKey);
    SortByKey(rows, RowKey)
  }

  lemma SelectedMembers(js: seq<JoinedRow>, p: QuizParam, status: Option<string>, j: JoinedRow)
    ensures j in Selected(js, p, status) <==> j in js && Wanted(p, status, j)
  {
    if j in js && Wanted(p, status, j) {
      var i :| 0 <= i < |js| && js[i] == j;
    }
  }

  lemma SortedProjectionMembers(js: seq<JoinedRow>, row: ReportRow)
    ensures row in SortByKey(Project(js), RowKey) <==> exists j :: j in js && row == RowOf(j)
  {
    var rows := Project(js);
    SortByKeyMembers(rows, RowKey);
    if exists j :: j in js && row == RowOf(j) {
      var j :| j in js && row == RowOf(j);
      var i :| 0 <= i < |js| && js[i] == j;
      assert rows[i] == row;
    }
  }

  lemma ReportIsProjected(t: Tables, p: QuizParam, status: Option<string>, row: ReportRow)
    ensures row in Report(t, p, status) <==>
            exists j :: j in Selected(JoinReport(t), p, status) && row == RowOf(j)
  {
    SortedProjectionMembers(Selected(JoinReport(t), p, status), row);
  }

  /** A row is in the listing exactly when it is the projection of a joined
      submission that the filters let through. */
  lemma ReportExactly(t: Tables, p: QuizParam, status: Option<string>, row: ReportRow)
    ensures row in Report(t, p, status) <==>
            exists k, j :: 0 <= k < |t.submissions| && JoinsReport(t, t.submissions[k], j) &&
                           Wanted(p, status, j) && row == RowOf(j)
  {
    ReportIsProjected(t, p, status, row);
    if row in Report(t, p, status) {
      var j :| j in Selected(JoinReport(t), p, status) && row == RowOf(j);
      SelectedMembers(JoinReport(t), p, status, j);
      JoinReportMembers(t, j);
    }
    if exists k, j :: 0 <= k < |t.submissions| && JoinsReport(t, t.submissions[k], j) &&
                      Wanted(p, status, j) && row == RowOf(j) {
      var k, j :| 0 <= k < |t.submissions| && JoinsReport(t, t.submissions[k], j) &&
                  Wanted(p, status, j) && row == RowOf(j);
      JoinReportMembers(t, j);
      SelectedMembers(JoinReport(t), p, status, j);
    }
  }

  /** Without filters (no quiz_id or 'all', and a status other than
      'approved', as the admin page sends by default) the listing is a
      reordering of every joined submission. */
  lemma UnfilteredReportKeepsAll(t: Tables, p: QuizParam, status: Option<string>)
    requires !QuizFilterApplies(p) && status != Some("approved")
    ensures multiset(Report(t, p, status)) == multiset(Project(JoinReport(t)))
  {
    FilterAllKept(JoinReport(t), (j: JoinedRow) => Wanted(p, status, j));
  }

  /** The rows of the WHERE clause built from `conditions`. */
  function Matching(js: seq<JoinedRow>, conditions: seq<Condition>): seq<JoinedRow> {
    Filter(js, (j: JoinedRow) => SatisfiesAll(conditions, j))
  }

  /** The query both export routes run: build the conditions, then select,
      project and order. */
  method SelectRows(t: Tables, p: QuizParam, status: Option<string>) returns (rows: seq<ReportRow>)
    ensures rows == Report(t, p, status)
  {
    var conditions := BuildConditions(p, status);
    var joined := JoinReport(t);
    forall i | 0 <= i < |joined|
      ensures SatisfiesAll(conditions, joined[i]) == Wanted(p, status, joined[i])
    {
      ConditionsMeanWanted(conditions, p, status, joined[i]);
    }
    FilterCongruent(joined, (j: JoinedRow) => SatisfiesAll(conditions, j), (j: JoinedRow) => Wanted(p, status, j));
    rows := SortByKey(Project(Matching(joined, conditions)), RowKey);
  }

  /** Once a quiz is deleted its submissions leave the listing: every row
      comes from a submission whose card belongs to another, existing quiz. */
  lemma DeletedQuizLeavesReport(t: Tables, quizId: int, p: QuizParam, status: Option<string>, row: ReportRow)
    requires row in Report(t.(quizzes := WithoutQuiz(t.quizzes, quizId)), p, status)
    ensures exists k, j: JoinedRow :: 0 <= k < |t.submissions| && t.submissions[k] == j.sub &&
                           j.card.quizId != quizId && j.quiz in t.quizzes && row == RowOf(j)
  {
    var t' := t.(quizzes := WithoutQuiz(t.quizzes, quizId));
    ReportExactly(t', p, status, row);
    var k, j :| 0 <= k < |t'.submissions| && JoinsReport(t', t'.submissions[k], j) &&
                Wanted(p, status, j) && row == RowOf(j);
    var i :| 0 <= i < |t'.quizzes| && t'.quizzes[i] == j.quiz;
  }

  /** Once a card is deleted its submissions leave the listing. */
  lemma DeletedCardLeavesReport(t: Tables, cardId: int, p: QuizParam, status: Option<string>, row: ReportRow)
    requires row in Report(t.(cards := WithoutCard(t.cards, cardId)), p, status)
    ensures exists k, j: JoinedRow :: 0 <= k < |t.submissions| && t.submissions[k] == j.sub &&
                           j.sub.cardId != cardId && row == RowOf(j)
  {
    var t' := t.(cards := WithoutCard(t.cards, cardId));
    ReportExactly(t', p, status, row);
    var k, j :| 0 <= k < |t'.submissions| && JoinsReport(t', t'.submissions[k], j) &&
                Wanted(p, status, j) && row == RowOf(j);
  }

  /** Once a category is deleted its submissions leave the listing. */
  lemma DeletedCategoryLeavesReport(t: Tables, categoryId: int, p: QuizParam, status: Option<string>, row: ReportRow)
    requires row in Report(t.(categories := WithoutCategory(t.categories, categoryId)), p, status)
    ensures exists k, j: JoinedRow :: 0 <= k < |t.submissions| && t.submissions[k] == j.sub &&
                           j.sub.categoryId != categoryId && row == RowOf(j)
  {
    var t' := t.(categories := WithoutCategory(t.categories, categoryId));
    ReportExactly(t', p, status, row);
    var k, j :| 0 <= k < |t'.submissions| && JoinsReport(t', t'.submissions[k], j) &&
                Wanted(p, status, j) && row == RowOf(j);
  }

  /** A csv column: the row field it reads and its title. */
  datatype Column = Column(field: string, title: string)

  const CsvHeader: seq<Column> := [
    Column("description", "Description"),
    Column("category", "Catégorie"),
    Column("user_name", "Utilisateur"),
    Column("quiz_name", "Quiz"),
    Column("timestamp", "Date"),
    Column("status", "Statut")
  ]

  /** A csv cell: a text, or a DATETIME value. */
  datatype Value = TextValue(text: string) | TimeValue(time: Timestamp)

  /** The value of field `field` of `row`; csv-writer writes an empty cell
      for a field the row does not have. */
  function Cell(row: ReportRow, field: string): Value {
    if field == "description" then TextValue(row.description)
    else if field == "category" then TextValue(row.category)
    else if field == "user_name" then TextValue(row.userName)
    else if field == "quiz_name" then TextValue(row.quizName)
    else if field == "timestamp" then TimeValue(row.timestamp)
    else if field == "status" then TextValue(StatusText(row.status))
    else TextValue("")
  }

  /** One csv line: the cells of the header's fields, in header order, which
      are the row's description, category, user name, quiz name, timestamp
      and status text; the id is not exported. */
  function CsvRecord(row: ReportRow): (r: seq<Value>)
    ensures |r| == |CsvHeader|
    ensures forall i :: 0 <= i < |r| ==> r[i] == Cell(row, CsvHeader[i].field)
    ensures r == [TextValue(row.description), TextValue(row.category), TextValue(row.userName),
                  TextValue(row.quizName), TimeValue(row.timestamp), TextValue(StatusText(row.status))]
  {
    seq(|CsvHeader|, i requires 0 <= i < |CsvHeader| => Cell(row, CsvHeader[i].field))
  }

  /** The titles of the csv header line, one per column. */
  function CsvTitles(): (r: seq<string>)
    ensures |r| == |CsvHeader|
    ensures forall i :: 0 <= i < |r| ==> r[i] == CsvHeader[i].title
    ensures r == ["Description", "Catégorie", "Utilisateur", "Quiz", "Date", "Statut"]
  {
    seq(|CsvHeader|, i requires 0 <= i < |CsvHeader| => CsvHeader[i].title)
  }

  /** A csv record keeps every field of the row except its id: two rows
      with the same record differ at most in id. */
  lemma CsvRecordKeepsFields(a: ReportRow, b: ReportRow)
    requires CsvRecord(a) == CsvRecord(b)
    ensures a.(id := 0) == b.(id := 0)
  {
    var ra, rb := CsvRecord(a), CsvRecord(b);
    assert ra[0] == rb[0] && ra[1] == rb[1] && ra[2] == rb[2];
    assert ra[3] == rb[3] && ra[4] == rb[4] && ra[5] == rb[5];
    assert StatusText(a.status) == StatusText(b.status);
    StatusTextRoundTrip(a.status);
    StatusTextRoundTrip(b.status);
  }

  /** One xlsx row: `{ description, catégorie }`. */
  datatype XlsxRow = XlsxRow(description: string, categorie: string)

  function XlsxData(rows: seq<ReportRow>): (r: seq<XlsxRow>)
    ensures |r| == |rows|
    ensures forall i :: 0 <= i < |r| ==>
              [TextValue(r[i].description), TextValue(r[i].categorie)] == CsvRecord(rows[i])[..2]
  {
    seq(|rows|, i requires 0 <= i < |rows| => XlsxRow(rows[i].description, rows[i].category))
  }

  /** What POST /export/data sends back. */
  datatype Export =
    | JsonFile(rows: seq<ReportRow>)
    | CsvFile(titles: seq<string>, records: seq<seq<Value>>)
    | XlsxFile(sheet: string, data: seq<XlsxRow>)
    | DatabaseFile(store: Tables)

  function CsvRecords(rows: seq<ReportRow>): (r: seq<seq<Value>>)
    ensures |r| == |rows|
    ensures forall i :: 0 <= i < |r| ==> r[i] == CsvRecord(rows[i])
  {
    seq(|rows|, i requires 0 <= i < |rows| => CsvRecord(rows[i]))
  }

  predicate KnownFormat(format: Option<string>) {
    format == Some("json") || format == Some("csv") || format == Some("xlsx") || format == Some("sqlite")
  }

  /** The `switch (format)` over the selected rows. */
  function Dispatch(format: Option<string>, rows: seq<ReportRow>, t: Tables): (r: Result<Export, Failure>)
    ensures r.Failure? <==> !KnownFormat(format)
    ensures r.Failure? ==> r.error == UnsupportedFormat && HttpStatus(r.error) == 400
    ensures format == Some("sqlite") ==> r == Success(DatabaseFile(t))
    ensures format == Some("json") ==> r == Success(JsonFile(rows))
    ensures format == Some("csv") ==> r == Success(CsvFile(CsvTitles(), CsvRecords(rows))) && |r.value.records| == |rows|
    ensures format == Some("xlsx") ==> r == Success(XlsxFile("Soumissions", XlsxData(rows))) && |r.value.data| == |rows|
  {
    match format
    case Some("json") => Success(JsonFile(rows))
    case Some("csv") => Success(CsvFile(CsvTitles(), CsvRecords(rows)))
    case Some("xlsx") => Success(XlsxFile("Soumissions", XlsxData(rows)))
    case Some("sqlite") => Success(DatabaseFile(t))
    case _ => Failure(UnsupportedFormat)
  }

  /** The sqlite download is the whole store whatever the filters select. */
  lemma SqliteIgnoresFilters(t: Tables, p1: QuizParam, s1: Option<string>, p2: QuizParam, s2: Option<string>)
    ensures Dispatch(Some("sqlite"), Report(t, p1, s1), t) == Dispatch(Some("sqlite"), Report(t, p2, s2), t)
  {
  }

  /** POST /export/data: run the query, then shape the rows by format. */
  method ExportData(t: Tables, format: Option<string>, p: QuizParam, status: Option<string>)
    returns (r: Result<Export, Failure>)
    ensures r == Dispatch(format, Report(t, p, status), t)
  {
    var rows := SelectRows(t, p, status);
    r := Dispatch(format, rows, t);
  }
}
