# QuizMaster in Dafny

QuizMaster is a small classroom quiz application. Players pick a quiz, sort its
cards into categories one at a time, and each answer is stored as a *pending*
submission. A moderator approves or rejects submissions, and an administrator
edits the catalogue and exports the answers. The server is Express over one
SQLite file with four tables: `quiz`, `card`, `category` and `submission`. The
client is a React application whose session state sits in one context.

The project models:

- **The SQLite store.** `Store.Database` is a class whose four tables are `seq`
  fields in rowid order. Next to them are the four AUTOINCREMENT counters of
  `sqlite_sequence`. Each INSERT, UPDATE and DELETE of the routes is a method
  that changes the store. The seed inserted at start-up is modelled too.
- **The read queries.** They are functions over the tables:
  - the active and full quiz lists;
  - one quiz with its cards and categories;
  - the pending moderation listing and its grouping by category name;
  - the filtered export listing and its per-format shaping.
- **The client session.** `Client.AppContext` holds the React state. The two
  pages that drive it are `Pages.QuizPage` and `Pages.ValidationPage`.
  - A fetch is modelled by how it ended, passed in as `Fetched<T>`: it either
    threw or resolved with a body.
  - Every request that changes server state is appended to the field `sent`.

Some decisions follow what the code does:

- **No cascading deletes.** The schema declares foreign keys with
  `ON DELETE CASCADE`, but no connection ever turns foreign keys on, so SQLite
  keeps the orphan rows. A delete therefore removes one row and nothing else.
  Lemmas show what the inner joins then hide.
- **No check on the current status.** Updating a submission's status does not
  look at its current status. An unknown id still gets a success reply, and a
  decided submission can be decided again.
- **The player's place is client-side.** It lives only in the client's card
  index. That index only moves up by one or resets to 0, and it is never
  capped. No server-side cursor and no auto-approval exist in this code.
- **NULL values.** A request field the client leaves out is bound as NULL. A
  NOT NULL column then makes the statement fail with status 500. On an UPDATE
  this happens only when a row matches. `quiz.description` and `quiz.isActive`
  are nullable:
  - a PUT without `isActive` stores NULL;
  - a toggle leaves NULL as NULL (`NOT NULL` is NULL in SQL).
- **ORDER BY** is a stable insertion sort on a key of text then time
  (`Ordering.SortByKey`). Texts compare code point by code point, which is
  what SQLite's BINARY collation does on UTF-8. SQL leaves the order of tied
  rows open, so the contracts claim only key order and a permutation.
- **Key order of the pending map.** The order in which JavaScript lists the
  grouped map's keys is a parameter `order`. It can be any duplicate-free
  listing of the keys.

## Model

| member | source | states |
|---|---|---|
| Schema.ParseStatus | server/database.js:52 | A text is accepted as a status iff it is one of 'pending', 'approved' or 'rejected', and an accepted status prints back as the same text |
| Schema.StatusTextRoundTrip | server/database.js:52 | Every status value lies in the CHECK domain, and parsing its text gives the same status back |
| Schema.NewQuiz | server/database.js:19-25 | A quiz row has the given id, name, description and creation time; an `isActive` that is not given falls back to true (the destructuring default at quiz.js:74, stored as 1) |
| Schema.NewSubmission | server/database.js:46-52 | A submission row has the given user, card, category, id and time; a status that is not given falls back to pending |
| Schema.CardRows | server/database.js:91-98 | A multi-row card INSERT adds one row per listed text, in listing order; the rows take consecutive keys from the first, so their ids increase; every row belongs to the named quiz and carries the statement's one timestamp |
| Schema.CategoryRows | server/database.js:85-88 | A multi-row category INSERT adds one row per listed name, in listing order; the rows take consecutive keys from the first, so their ids increase; every row belongs to the named quiz and carries the statement's one timestamp |
| Schema.FindQuiz | server/routes/quiz.js:37 | Looking up by id finds a quiz of the table with that id, and finds none exactly when no row has it |
| Schema.FindCard | server/routes/cards.js:42 | Looking up by id finds a card of the table with that id, and finds none exactly when no row has it |
| Schema.FindCategory | server/routes/categories.js:41 | Looking up by id finds a category of the table with that id, and finds none exactly when no row has it |
| Schema.WithoutQuiz | server/routes/quiz.js:132 | `DELETE FROM quiz WHERE id = ?` keeps exactly the rows with another id |
| Schema.WithoutCard | server/routes/cards.js:58 | `DELETE FROM card WHERE id = ?` keeps exactly the rows with another id |
| Schema.WithoutCategory | server/routes/categories.js:57 | `DELETE FROM category WHERE id = ?` keeps exactly the rows with another id |
| Ordering.SortByKey | server/routes/submissions.js:36 | ORDER BY gives a permutation of its input in non-decreasing key order, text first and then time |
| Ordering.SortByKeyMembers | server/routes/export.js:46 | Sorting loses no row and adds none |
| Ordering.FilterKeepsSorted | server/routes/submissions.js:36 | Dropping rows from an ordered listing leaves it ordered |
| Ordering.SameTextByTime | server/routes/submissions.js:36 | In an ordered listing, rows with the same text key are in non-decreasing time order |
| Catalog.NewestFirstWhenSorted | server/routes/quiz.js:8 | Ascending order on the negated creation time is `created_at DESC` |
| Catalog.ActiveQuizzes | server/routes/quiz.js:7-17 | GET /quiz/active lists only quizzes of the table whose flag is set, lists every such quiz, repeats none, and lists them newest first |
| Catalog.AllQuizzes | server/routes/quiz.js:20-30 | GET /quiz/all lists every quiz exactly once, newest first |
| Catalog.ActiveIsAllFiltered | server/routes/quiz.js:7-30 | A quiz is in the active list iff it is in the full list and its flag is set |
| Catalog.ActiveListsEachOnce | server/routes/quiz.js:7-17 | An active quiz appears in the active list exactly as often as in the table |
| Catalog.CardsOfQuiz | server/routes/cards.js:7-18 | Listing cards by quiz gives exactly the cards with that quiz id, in ascending id order |
| Catalog.CategoriesOfQuiz | server/routes/categories.js:6-17 | Listing categories by quiz gives exactly the categories with that quiz id, in ascending id order |
| Catalog.GetQuiz | server/routes/quiz.js:33-70 | GET /quiz/:id fails with 'Quiz not found' iff no quiz has that id; otherwise it gives that quiz, its cards (quiz.js:49) and its categories (quiz.js:56) |
| Moderation.JoinPendingMembers | server/routes/submissions.js:32-34 | A row is in the joined listing iff some submission joins to an existing card and category and yields that row |
| Moderation.JoinedArePending | server/routes/submissions.js:35 | Every joined row has status pending |
| Moderation.PendingRows | server/routes/submissions.js:23-37 | The pending listing is a permutation of the joined pending rows, ordered by category name and then time |
| Moderation.PendingListingExactly | server/routes/submissions.js:23-37 | A row is listed iff some pending submission exists whose card and category both exist and which yields that row |
| Moderation.DeletedCardLeavesListing | server/routes/submissions.js:33 | Once a card is deleted, every listed row comes from a pending submission for another card, so submissions for the deleted card are hidden |
| Moderation.DeletedCategoryLeavesListing | server/routes/submissions.js:34 | Once a category is deleted, every listed row comes from a pending submission for another category |
| Moderation.BucketSnoc | server/routes/submissions.js:51 | Pushing a row adds it at the end of its own category's bucket and of no other |
| Moderation.BucketOfAbsentName | server/routes/submissions.js:48-50 | A name that no row carries has an empty bucket |
| Moderation.BucketOfPresentName | server/routes/submissions.js:48-51 | A name that some row carries has a non-empty bucket |
| Moderation.GroupedIsBuckets | server/routes/submissions.js:46-53 | The reduce creates a key for each category name that occurs, and each key holds exactly that name's rows in listing order |
| Moderation.NamesSnoc | server/routes/submissions.js:47-50 | One more row adds its category name to the key set |
| Moderation.GroupByCategory | server/routes/submissions.js:46-53 | The reducer throws (no reply) iff some row's category name is a property a fresh object inherits, such as `constructor` or `__proto__`; otherwise it builds the grouped map, whose keys are the names that occur and whose buckets are each name's rows in order |
| Moderation.GroupedShape | server/routes/submissions.js:46-53 | No bucket is empty, and every row of a bucket is a listed row whose category name is the key |
| Moderation.BucketMembers | server/routes/submissions.js:46-53 | A row is in bucket `name` iff it is listed and its category name is `name`, so same-named categories of different quizzes share a bucket |
| Moderation.PendingBucketsChronological | server/routes/submissions.js:36-51 | Within each bucket of the pending map, timestamps are non-decreasing |
| Moderation.FlattenIsNamedIn | server/routes/submissions.js:46-53 | Concatenating the buckets of distinct keys gives exactly the rows that carry those names |
| Moderation.FlattenGroupedIsPermutation | server/routes/submissions.js:46-53 | The buckets together hold exactly the listed rows; none is lost and none is repeated |
| Moderation.ParseTarget | server/routes/submissions.js:64-67 | A target status is accepted iff it is 'approved' or 'rejected'; an accepted one is never pending |
| Moderation.SetStatusLastWins | server/routes/submissions.js:69 | A second update of the same id overrides the first, whatever status it held |
| Moderation.SetStatusUnknownId | server/routes/submissions.js:69-78 | An update of an id no row has changes nothing, although the reply is a success |
| Moderation.SetStatusKeepsKeys | server/routes/submissions.js:69 | The update keeps the table keyed, and the row with that id now carries the new status and is otherwise unchanged |
| Report.JoinReportMembers | server/routes/export.js:15-28 | A joined row exists iff a submission joins to an existing card, an existing category and the card's existing quiz |
| Report.DecimalValue | server/routes/export.js:35 | A text has a decimal value iff it is non-empty and made only of digits |
| Report.NatTextRoundTrip | server/routes/export.js:35 | Reading back the decimal text of any number gives that number |
| Report.TextIdSelectsQuiz | server/routes/export.js:33-36 | A quiz id sent as its decimal text turns the quiz filter on and selects exactly the quiz with that id |
| Report.BuildConditions | server/routes/export.js:30-40 | The quiz condition is pushed iff `quiz_id` is truthy and not 'all'; the approved condition is pushed iff status is 'approved'; nothing else is pushed |
| Report.ConditionsMeanWanted | server/routes/export.js:42-44 | The WHERE clause, with its conditions joined by AND, holds of a row iff the row is wanted by both filters |
| Report.Project | server/routes/export.js:16-23 | The selected columns give one output row per joined row, in the same order, and a row is in the output iff it is the projection of some joined row |
| Report.Report | server/routes/export.js:46 | The export listing is ordered by quiz name and then time; with status 'approved' it holds approved rows only |
| Report.SelectedMembers | server/routes/export.js:33-44 | A joined row survives the WHERE iff it is wanted by both filters |
| Report.SortedProjectionMembers | server/routes/export.js:46 | Ordering the projected rows keeps exactly the projections of the joined rows |
| Report.ReportIsProjected | server/routes/export.js:15-46 | A row is exported iff it projects a joined row that passes the filters |
| Report.ReportExactly | server/routes/submissions.js:82-126 | A row is exported iff some submission joins to its card, category and quiz, passes both filters and projects to the row |
| Report.UnfilteredReportKeepsAll | server/routes/export.js:33-40 | With `quiz_id` absent, empty or 'all' and status not 'approved', the export keeps every joined row |
| Report.SelectRows | server/routes/submissions.js:100-116 | Building the conditions, filtering and ordering gives the export listing |
| Report.DeletedQuizLeavesReport | server/routes/export.js:27 | Once a quiz is deleted, every exported row comes from a submission whose card belongs to a quiz that still exists |
| Report.DeletedCardLeavesReport | server/routes/export.js:25 | Once a card is deleted, every exported row comes from a submission for another card |
| Report.DeletedCategoryLeavesReport | server/routes/export.js:26 | Once a category is deleted, every exported row comes from a submission for another category |
| Report.CsvRecord | server/routes/export.js:73-85 | A csv record has one cell per header column, read from the field that column names: description, category, user name, quiz name, timestamp and status text, in that order, and no id |
| Report.CsvTitles | server/routes/export.js:75-82 | The csv header line reads Description, Catégorie, Utilisateur, Quiz, Date, Statut, one title per column |
| Report.CsvRecordKeepsFields | server/routes/export.js:75-85 | Two rows with the same csv record agree on every field but the id, which the csv leaves out |
| Report.XlsxData | server/routes/export.js:97-100 | The xlsx data has one row per exported row, in order, holding exactly its description and category |
| Report.Dispatch | server/routes/export.js:57-131 | The format switch: json sends the rows; csv sends the header titles and one record per row; xlsx sends the sheet "Soumissions" with one description and category pair per row; sqlite sends the whole store; an unknown or missing format fails with 400 |
| Report.SqliteIgnoresFilters | server/routes/export.js:124-127 | The sqlite download does not depend on the filters |
| Report.ExportData | server/routes/export.js:10-131 | POST /export/data shapes the export listing by format |
| Store.Toggled | server/routes/quiz.js:109 | `NOT isActive` flips a set flag and leaves NULL as NULL; no other column changes |
| Store.ToggleTwice | server/routes/quiz.js:106-126 | Toggling the same id twice restores the whole quiz table |
| Store.SampleCategoryRows | server/database.js:85-105 | The seed adds five categories, each naming one of the two seed quizzes |
| Store.SampleCardRows | server/database.js:91-115 | The seed adds twelve cards, each naming one of the two seed quizzes |
| Store.SeedReferencesResolve | server/database.js:72-82 | Rows that name the first or second seed quiz id find that quiz among the seed quizzes |
| Store.Database.constructor | server/database.js:17-55 | A new file has four empty tables and zero counters |
| Store.Database.CreateQuiz | server/routes/quiz.js:73-86 | A missing name fails NOT NULL and changes nothing; otherwise exactly one quiz is appended with the next id and `isActive` defaulting to true; the other tables are unchanged |
| Store.Database.UpdateQuiz | server/routes/quiz.js:89-103 | It fails iff the name is missing and the id exists; otherwise the rows with that id get the new name, description and flag (a missing flag is NULL), and nothing else changes |
| Store.Database.ToggleQuiz | server/routes/quiz.js:106-126 | Only the row with that id is toggled; the reply is that row read back, or none for an unknown id |
| Store.Database.DeleteQuiz | server/routes/quiz.js:129-141 | Only the rows with that id leave the quiz table; its cards and categories stay |
| Store.Database.CreateCard | server/routes/cards.js:22-35 | A missing text or quiz id fails NOT NULL (in table order) and changes nothing; otherwise exactly one card is appended with the next id, the given text and the given quiz id |
| Store.Database.UpdateCard | server/routes/cards.js:38-52 | It fails iff the text is missing and the id exists; otherwise only the text of that card changes |
| Store.Database.DeleteCard | server/routes/cards.js:55-67 | Only the rows with that id leave the card table, whether or not one matched |
| Store.Database.CreateCategory | server/routes/categories.js:21-34 | A missing name or quiz id fails NOT NULL and changes nothing; otherwise exactly one category is appended with the next id, the given name and the given quiz id |
| Store.Database.UpdateCategory | server/routes/categories.js:37-51 | It fails iff the name is missing and the id exists; otherwise only the name of that category changes |
| Store.Database.DeleteCategory | server/routes/categories.js:54-66 | Only the rows with that id leave the category table, whether or not one matched |
| Store.Database.CreateSubmission | server/routes/submissions.js:6-19 | A missing user name, card id or category id fails NOT NULL and changes nothing; otherwise exactly one submission is appended with the next id and the given fields, and its status is pending |
| Store.Database.UpdateSubmissionStatus | server/routes/submissions.js:60-79 | It fails with 400 and changes nothing iff the target is not 'approved' or 'rejected'; otherwise the status of that id is set whatever it was, and nothing else changes |
| Store.Database.InsertCards | server/database.js:91-98 | A multi-row card INSERT appends its rows with the next ids |
| Store.Database.InsertCategories | server/database.js:85-88 | A multi-row category INSERT appends its rows with the next ids |
| Store.Database.SeedQuizCatalog | server/database.js:84-98 | One quiz's seed categories and cards are appended, all naming that quiz |
| Store.Database.InsertSampleCatalog | server/database.js:84-115 | The five seed categories and the twelve seed cards are appended, each naming one of the two given quiz ids |
| Store.Database.InsertSampleQuizzes | server/database.js:72-75 | The two seed quizzes are appended with the next two ids |
| Store.Database.InsertSampleDataAsWritten | server/database.js:62-121 | With quizzes present nothing changes; otherwise the seed is inserted as written, with cards and categories naming quiz ids 1 and 2 whatever ids the quizzes received |
| Store.Database.InsertSampleData | server/database.js:62-121 | With quizzes present nothing changes; otherwise the seed is inserted, and its cards and categories name the ids the two seed quizzes actually received |
| Store.WipeSampleQuizzes | server/routes/quiz.js:129-141 | Deleting quizzes 1 and 2 empties a freshly seeded quiz table |
| Store.UnreferencedQuizIsEmpty | server/routes/quiz.js:33-70 | A quiz that no card and no category names is served with empty card and category lists |
| Store.SeededCardsOfQuiz | server/database.js:91-98 | When the seed's fruit cards name a quiz no earlier card names, that quiz's cards are exactly the six fruit cards |
| Store.SeededCategoriesOfQuiz | server/database.js:85-88 | When the seed's fruit categories name a quiz no earlier category names, that quiz's categories are exactly its two |
| Store.SeededDatabase | server/database.js:15-121 | A first start seeds quizzes 1 and 2, with counters 2, 5 and 12 |
| Store.SeedThenWipe | server/routes/quiz.js:129-141 | After both seed quizzes are deleted, the quiz table is empty but the counters and the orphan cards and categories remain |
| Store.ReseedAfterWipeAsWritten | server/database.js:81-82 | After a wipe and a restart, the re-seeded fruit quiz gets id 3 and is served with no cards and no categories |
| Store.ReseedAfterWipe | server/database.js:72-115 | With the quiz ids taken from the inserted quizzes, the re-seeded fruit quiz 3 is served with its six cards and two categories |
| Client.Pruned | src/contexts/AppContext.tsx:191-200 | After pruning, no bucket holds the id, no bucket is empty, no key is added, and every remaining row was in that same bucket |
| Client.PrunedKeepsOthers | src/contexts/AppContext.tsx:191-200 | Rows with another id stay in their bucket; a bucket is dropped only if all its rows had the id; each bucket keeps its rows in their original order |
| Client.PartlyPrunedStep | src/contexts/AppContext.tsx:193-198 | One `forEach` step filters one key's bucket and deletes the key if the bucket is now empty |
| Client.PartlyPrunedEnds | src/contexts/AppContext.tsx:192-199 | Before the loop the copy equals the previous map; after it has visited every key it is the pruned map |
| Client.PruneBuckets | src/contexts/AppContext.tsx:191-200 | The copy-then-forEach update computes the pruned map |
| Client.PrunedAll | src/pages/ValidationPage.tsx:44-49 | The updates of the accept-all loop add no key |
| Client.PrunedAllShape | src/pages/ValidationPage.tsx:44-49 | After the accept-all loop every remaining bucket is non-empty, every remaining row was in that bucket before, and no resolved update's id remains |
| Client.TotalIsFlattenLength | src/pages/ValidationPage.tsx:68-71 | The pending total is the length of the flattened buckets, which is the sum of the bucket lengths |
| Client.FlattenContains | src/pages/ValidationPage.tsx:45 | Object.values(...).flat() contains every row of every listed bucket |
| Client.AcceptAllClears | src/pages/ValidationPage.tsx:44-49 | When every update of the accept-all loop resolves, no bucket is left |
| Client.TotalZeroIff | src/pages/ValidationPage.tsx:68-71 | The total is 0 iff every bucket is empty |
| Client.TotalZeroIffListed | src/pages/ValidationPage.tsx:68-71 | The total over the listed keys is 0 iff each listed bucket is empty |
| Client.TotalOfGrouped | src/pages/ValidationPage.tsx:68-71 | Over the map the server builds, the total is the number of pending rows listed |
| Client.CardAt | src/pages/QuizPage.tsx:71 | There is a current card iff the index is below the number of cards, and it is the card at that index |
| Client.CompleteIffNoCard | src/pages/QuizPage.tsx:70-71 | The quiz is complete iff there is no current card, and it stays complete when the index moves on |
| Client.AppContext.constructor | src/contexts/AppContext.tsx:70-79 | Initial state: no quizzes, no quiz loaded, index 0, no user name, signed out, no pending map, nothing sent |
| Client.AppContext.LoadActiveQuizzes | src/contexts/AppContext.tsx:83-91 | A resolved fetch replaces the active list with its body; a thrown one changes nothing |
| Client.AppContext.LoadAllQuizzes | src/contexts/AppContext.tsx:93-101 | A resolved fetch replaces the full list with its body; a thrown one changes nothing |
| Client.AppContext.LoadQuiz | src/contexts/AppContext.tsx:103-114 | A resolved fetch replaces quiz, cards and categories and resets the index to 0; an error body clears them; a thrown fetch changes nothing |
| Client.AppContext.SubmitAnswer | src/contexts/AppContext.tsx:116-132 | Exactly one answer is posted, with the current user name and the given card and category ids; the state is unchanged |
| Client.AppContext.NextCard | src/contexts/AppContext.tsx:134-136 | The index goes up by exactly 1, with no upper bound |
| Client.AppContext.ResetQuiz | src/contexts/AppContext.tsx:138-141 | The index is 0 and the user name is empty |
| Client.AppContext.SetUserName | src/contexts/AppContext.tsx:76 | Only the user name changes |
| Client.AppContext.Authenticate | src/contexts/AppContext.tsx:143-163 | The password is posted; the result is true iff the response was ok, and only then does the session become authenticated with that type |
| Client.AppContext.Logout | src/contexts/AppContext.tsx:165-168 | The session is unauthenticated with no type |
| Client.AppContext.LoadPendingSubmissions | src/contexts/AppContext.tsx:170-178 | A resolved fetch replaces the pending map with its body; a thrown one changes nothing |
| Client.AppContext.UpdateSubmissionStatus | src/contexts/AppContext.tsx:180-204 | One status update is sent; the map is pruned whenever the fetch resolves, whatever the HTTP status, and stays as it was when the fetch throws |
| Pages.QuizPage.constructor | src/pages/QuizPage.tsx:26-28 | No modal, no animation and no selection at first |
| Pages.QuizPage.OnQuizOrUserChange | src/pages/QuizPage.tsx:36-40 | The name modal opens when a quiz is loaded and the user name is empty; otherwise it stays as it was |
| Pages.QuizPage.HandleUserNameSubmit | src/pages/QuizPage.tsx:42-45 | The name is set and the modal closes; nothing else in the context or the page changes |
| Pages.QuizPage.HandleCategorySelect | src/pages/QuizPage.tsx:47-63 | An answer is posted and the timer set iff a card exists at the current index; the answer carries that card's id, the chosen category and the user name; the index does not move yet, and no other context field changes |
| Pages.QuizPage.OnSuccessTimeout | src/pages/QuizPage.tsx:57-61 | The timer clears the animation and the selection and moves the index on by one; nothing else changes |
| Pages.QuizPage.AnswerCard | src/pages/QuizPage.tsx:47-63 | A selection followed by its timer posts one answer, advances the index by exactly one and leaves no animation or selection; on a complete quiz it changes nothing; no other field changes either way |
| Pages.QuizPage.HandleRestart | src/pages/QuizPage.tsx:65-68 | The index is 0, the user name is empty and the name modal is open; the quiz, its cards, the listings, the session and the request log are kept |
| Pages.AcceptAllShownIff | src/pages/ValidationPage.tsx:103-126 | The accept-all button shows iff the empty-state message does not, and iff some bucket holds a submission |
| Pages.AcceptAllShownForListing | src/pages/ValidationPage.tsx:103 | Over the map the server builds, the button shows iff some submission is pending and listed |
| Pages.ValidationPage.constructor | src/pages/ValidationPage.tsx:19 | The password modal is closed at first |
| Pages.ValidationPage.OnAuthStateChange | src/pages/ValidationPage.tsx:21-27 | Without a validation session the password modal opens and nothing is loaded; with one the pending map is loaded; the quiz side of the context is untouched |
| Pages.ValidationPage.HandleAuthenticate | src/pages/ValidationPage.tsx:29-36 | The password is posted for validation; on success the modal closes and the pending map is loaded; on failure nothing else changes; the quiz side of the context is untouched either way |
| Pages.ValidationPage.HandleReject | src/pages/ValidationPage.tsx:39-41 | Clicking a row (line 176) sends exactly one 'rejected' update, for that row's id, prunes the row once it resolves, and changes nothing else |
| Pages.ValidationPage.HandleAcceptAll | src/pages/ValidationPage.tsx:44-49 | One 'approved' update is sent per row of the flattened snapshot taken before the loop, in order, each for that row's id, and the map is pruned after each resolved one; nothing else changes |
| Pages.ValidationPage.HandleLogout | src/pages/ValidationPage.tsx:50-53 | The session is signed out; the pending map, the request log and the quiz side are kept |

## Left out

- Rendering: JSX, styling, animations, navigation, and the pages other than the two modelled ones. AdminPage is form state and downloads; its default export filters are inputs to `Report.ExportData`.
- The password and name modals. The password modal submits only a password that is not blank after `trim()`, and it passes the password on untrimmed. The name modal passes on `name.trim()`, and only when that is not empty, so the name `setUserName` stores and every POST /submissions sends is trimmed and never empty. `Pages.QuizPage.HandleUserNameSubmit` takes the submitted name as given, any string included.
- server/server.js is not part of this model. Its password middleware is an outside gate, represented only by the `Fetched<bool>` outcome that `Authenticate` receives.
- I/O: the outcome of every fetch is an input. The HTTP routes, JSON encoding and the csv, xlsx and database files are not modelled. The model gives the values that would be written.
- The SQLite engine: no SQL text is modelled, only the predicate each statement computes. Date formatting and the export file name are left out too.
- Concurrency: requests and React effects are modelled as atomic and sequential. The seed does not run inside `db.serialize`: its count query returns after `serialize` has ended, and the four category and card INSERTs are queued from a callback in parallel mode, so nothing fixes the order in which they run. The order decides which ids they get. The model runs them in the order the source lists them (`Store.SampleCategoryRows`, `Store.SampleCardRows`).
- Timers: the success timer is the separate method `OnSuccessTimeout`, and its 1.5 s delay is not modelled. A second selection made before the timer fires would post again; the model covers only selection and timer in turn (`AnswerCard`).
- The order in which JavaScript lists the grouped map's keys is not modelled. It is the parameter `order`, any duplicate-free listing of the keys. Rows that tie on the ORDER BY key keep table order, and no contract depends on that choice.
- Store.Database.CreateQuiz: the route replies with `{ id, name, description, isActive }` from the request, not with the stored row the model returns. That reply never has `created_at`, leaves out `description` when none was sent, and carries `true` where the row holds 1. The model does not represent this reply.
- Store.Database.CreateQuiz and Schema.NewQuiz: `isActive` is an `Option<bool>`, so a JSON `null` cannot be told apart from a missing field. In the source the destructuring default at server/routes/quiz.js:74 replaces only `undefined`, so `{"isActive": null}` stores NULL and GET /quiz/active then leaves that quiz out. The admin page always sends a boolean.
- Client.AppContext.LoadQuiz: a 404 or 500 body has no `quiz`, `cards` or `categories`, which JavaScript reads as `undefined`. The model stores no quiz and empty lists. In the source the next render of QuizPage then reads `currentCards.length` (src/pages/QuizPage.tsx:69) before its no-quiz guard and throws, while the model's page would show the loading state.
- Effect re-runs: the dependency lists of src/pages/QuizPage.tsx:30-34 and src/pages/ValidationPage.tsx:21-27 name context functions that are created anew on every render, so React may run those effects again after every render, fetching again, and each `loadQuiz` puts the index back to 0 (src/contexts/AppContext.tsx:112). The model runs an effect only when it is called. AnswerCard's advance by one holds for the handler and its timer, not across such re-runs.
- Moderation.GroupByCategory: a thrown reducer is modelled as no reply. The crash of the server process that follows, and the client's fetch then failing, are not modelled beyond that.
- Client.AppContext.LoadActiveQuizzes: a 500 body has no `quizzes` field, which JavaScript reads as `undefined`. The model passes the resolved body in as a list.
- Numeric conversion of `quiz_id`: a text value matches an id only when it is all decimal digits. SQLite's other numeric conversions (signs, spaces, decimals) are not modelled.
- The export rows of GET /submissions/export name two columns differently (`card_description`, `category_name`). The model uses one row shape for both routes, since the names have no effect on which rows are selected or their order.
- Engine errors other than a NOT NULL violation (a locked or corrupt file, for instance) are not modelled. A failing route gives a `Failure` value, and `Schema.HttpStatus` maps it to 400, 404 or 500.
- Foreign keys: the declared ON DELETE CASCADE never runs in SQLite while foreign keys are off, so the model does not perform it. Lemmas show what the inner joins then hide. The pending listing never joins the quiz table, so a deleted quiz does not hide its pending submissions there.

## Findings

| source | as written | input that shows it | evidently intended | confidence | as-written member | corrected member |
|---|---|---|---|---|---|---|
| server/database.js:81-82 | The seed gives its categories and cards the quiz ids 1 and 2, whatever ids the two quizzes just inserted received | Delete both quizzes (ids 1 and 2), then restart: the quiz table is empty, so the seed runs again and AUTOINCREMENT gives the quizzes ids 3 and 4, while the new cards and categories still name 1 and 2; quiz 3 is served with no cards and no categories | The seeded cards and categories name the ids the seed quizzes received (e.g. from `this.lastID`) | not executed | Store.ReseedAfterWipeAsWritten | Store.ReseedAfterWipe |
