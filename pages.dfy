/** The two pages that drive the session state: playing a quiz
    (src/pages/QuizPage.tsx) and moderating the pending submissions
    (src/pages/ValidationPage.tsx). Each handler is one method; an effect is a
    method run when its dependencies change, and the success timer's callback
    is a method of its own. */
module Pages {
  import opened Wrappers
  import opened Schema
  import opened Catalog
  import opened Moderation
  import opened Client

  class QuizPage {
    const app: AppContext
    var showUserModal: bool
    var showSuccess: bool
    var selectedCategory: Option<int>

    constructor (app: AppContext)
      ensures this.app == app
      ensures !showUserModal && !showSuccess && selectedCategory == None
    {
      this.app := app;
      showUserModal, showSuccess, selectedCategory := false, false, None;
    }

    /** The effect on the current quiz and the player name: a loaded quiz and
        no name open the name modal; otherwise the modal stays as it was. */
    method OnQuizOrUserChange()
      modifies this
      ensures showUserModal == (old(showUserModal) || (app.currentQuiz.Some? && app.userName == ""))
      ensures showSuccess == old(showSuccess) && selectedCategory == old(selectedCategory)
    {
      if app.currentQuiz.Some? && app.userName == "" {
        showUserModal := true;
      }
    }

    /** handleUserNameSubmit: the name is stored and the modal closes. */
    method HandleUserNameSubmit(name: string)
      requires app.Valid()
      modifies this, app
      ensures app.Valid()
      ensures app.userName == name && !showUserModal
      ensures app.currentCardIndex == old(app.currentCardIndex) && app.sent == old(app.sent)
      ensures app.currentQuiz == old(app.currentQuiz) && app.currentCards == old(app.currentCards)
      ensures app.currentCategories == old(app.currentCategories)
      ensures app.activeQuizzes == old(app.activeQuizzes) && app.allQuizzes == old(app.allQuizzes)
      ensures app.isAuthenticated == old(app.isAuthenticated) && app.authType == old(app.authType)
      ensures app.pendingSubmissions == old(app.pendingSubmissions)
      ensures showSuccess == old(showSuccess) && selectedCategory == old(selectedCategory)
    {
      app.SetUserName(name);
      showUserModal := false;
    }

    /** handleCategorySelect: only when a card exists at the current index, the
        answer is posted with that card's id and the chosen category, and the
        success animation starts; `scheduled` says the timer was set. The index
        itself moves only when the timer fires. */
    method HandleCategorySelect(categoryId: int) returns (scheduled: bool)
      requires app.Valid()
      modifies this, app
      ensures app.Valid()
      ensures scheduled <==> CardAt(old(app.currentCards), old(app.currentCardIndex)).Some?
      ensures scheduled ==>
                && app.sent == old(app.sent) + [PostSubmission(old(app.userName), old(app.currentCards[app.currentCardIndex]).id, categoryId)]
                && selectedCategory == Some(categoryId) && showSuccess
      ensures !scheduled ==>
                app.sent == old(app.sent) && selectedCategory == old(selectedCategory) && showSuccess == old(showSuccess)
      ensures app.QuizView() == old(app.QuizView())
      ensures app.isAuthenticated == old(app.isAuthenticated) && app.authType == old(app.authType)
      ensures app.pendingSubmissions == old(app.pendingSubmissions) && showUserModal == old(showUserModal)
    {
      if app.currentCardIndex < |app.currentCards| {
        selectedCategory := Some(categoryId);
        app.SubmitAnswer(app.currentCards[app.currentCardIndex].id, categoryId);
        showSuccess := true;
        scheduled := true;
      } else {
        scheduled := false;
      }
    }

    /** The success timer's callback: the animation ends, the selection clears
        and the index moves one card on. */
    method OnSuccessTimeout()
      requires app.Valid()
      modifies this, app
      ensures app.Valid()
      ensures !showSuccess && selectedCategory == None
      ensures app.currentCardIndex == old(app.currentCardIndex) + 1
      ensures app.currentQuiz == old(app.currentQuiz) && app.currentCards == old(app.currentCards)
      ensures app.currentCategories == old(app.currentCategories)
      ensures app.activeQuizzes == old(app.activeQuizzes) && app.allQuizzes == old(app.allQuizzes)
      ensures app.isAuthenticated == old(app.isAuthenticated) && app.authType == old(app.authType)
      ensures app.userName == old(app.userName) && app.sent == old(app.sent)
      ensures app.pendingSubmissions == old(app.pendingSubmissions)
      ensures showUserModal == old(showUserModal)
    {
      showSuccess := false;
      selectedCategory := None;
      app.NextCard();
    }

    /** A selection followed by its timer with nothing in between: one answer
        posted and the index one further when there was a card, nothing at all
        when the quiz was already complete. */
    method AnswerCard(categoryId: int)
      requires app.Valid()
      modifies this, app
      ensures app.Valid()
      ensures old(IsQuizComplete(app.currentCardIndex, app.currentCards)) ==>
                app.currentCardIndex == old(app.currentCardIndex) && app.sent == old(app.sent)
      ensures !old(IsQuizComplete(app.currentCardIndex, app.currentCards)) ==>
                && app.currentCardIndex == old(app.currentCardIndex) + 1
                && app.sent == old(app.sent) + [PostSubmission(old(app.userName), old(app.currentCards[app.currentCardIndex]).id, categoryId)]
      ensures old(IsQuizComplete(app.currentCardIndex, app.currentCards)) ==>
                showSuccess == old(showSuccess) && selectedCategory == old(selectedCategory)
      ensures !old(IsQuizComplete(app.currentCardIndex, app.currentCards)) ==>
                !showSuccess && selectedCategory == None
      ensures showUserModal == old(showUserModal) && app.userName == old(app.userName)
      ensures app.currentQuiz == old(app.currentQuiz) && app.currentCards == old(app.currentCards)
      ensures app.currentCategories == old(app.currentCategories)
      ensures app.activeQuizzes == old(app.activeQuizzes) && app.allQuizzes == old(app.allQuizzes)
      ensures app.isAuthenticated == old(app.isAuthenticated) && app.authType == old(app.authType)
      ensures app.pendingSubmissions == old(app.pendingSubmissions)
    {
      var scheduled := HandleCategorySelect(categoryId);
      if scheduled {
        OnSuccessTimeout();
      }
    }

    /** handleRestart: the first card again, no player name, and the name modal open. */
    method HandleRestart()
      requires app.Valid()
      modifies this, app
      ensures app.Valid()
      ensures app.currentCardIndex == 0 && app.userName == "" && showUserModal
      ensures app.currentQuiz == old(app.currentQuiz) && app.currentCards == old(app.currentCards)
      ensures app.currentCategories == old(app.currentCategories)
      ensures app.activeQuizzes == old(app.activeQuizzes) && app.allQuizzes == old(app.allQuizzes)
      ensures app.isAuthenticated == old(app.isAuthenticated) && app.authType == old(app.authType)
      ensures app.pendingSubmissions == old(app.pendingSubmissions) && app.sent == old(app.sent)
      ensures showSuccess == old(showSuccess) && selectedCategory == old(selectedCategory)
    {
      app.ResetQuiz();
      showUserModal := true;
    }
  }

  /** The moderation view shows the accept-all button exactly when some
      submission is pending. */
  predicate ShowsAcceptAll(m: Buckets, order: seq<string>)
    requires Enumerates(order, m.Keys)
  {
    TotalPending(m, order) > 0
  }

  /** The empty-state message is shown exactly when nothing is pending. */
  predicate ShowsEmptyState(m: Buckets, order: seq<string>)
    requires Enumerates(order, m.Keys)
  {
    TotalPending(m, order) == 0
  }

  /** The button and the empty-state message never show together and one of
      them always shows; the button shows iff some bucket holds a row, and,
      over the map the server builds, iff some submission is listed. */
  lemma AcceptAllShownIff(m: Buckets, order: seq<string>)
    requires Enumerates(order, m.Keys)
    ensures ShowsAcceptAll(m, order) <==> !ShowsEmptyState(m, order)
    ensures ShowsAcceptAll(m, order) <==> exists k :: k in m && m[k] != []
  {
    TotalZeroIff(m, order);
  }

  /** Over the grouped listing, the button shows iff the listing is not empty. */
  lemma AcceptAllShownForListing(rows: seq<PendingRow>, order: seq<string>)
    requires Enumerates(order, Grouped(rows).Keys)
    ensures ShowsAcceptAll(Grouped(rows), order) <==> rows != []
  {
    TotalOfGrouped(rows, order);
  }

  class ValidationPage {
    const app: AppContext
    var showPasswordModal: bool

    constructor (app: AppContext)
      ensures this.app == app && !showPasswordModal
    {
      this.app := app;
      showPasswordModal := false;
    }

    /** Whether the session may moderate. */
    predicate CanModerate()
      reads this, app
    {
      app.isAuthenticated && app.authType == Some(Validation)
    }

    /** The effect on the authentication state: unless authenticated for
        validation, the password modal opens; otherwise the pending
        submissions are loaded. */
    method OnAuthStateChange(response: Fetched<Buckets>)
      requires app.Valid()
      modifies this, app
      ensures app.Valid()
      ensures !old(CanModerate()) ==> showPasswordModal && app.pendingSubmissions == old(app.pendingSubmissions)
      ensures old(CanModerate()) ==>
                && showPasswordModal == old(showPasswordModal)
                && app.pendingSubmissions == if response.Resolved? then response.body else old(app.pendingSubmissions)
      ensures app.isAuthenticated == old(app.isAuthenticated) && app.authType == old(app.authType)
      ensures app.sent == old(app.sent)
      ensures app.QuizView() == old(app.QuizView())
    {
      if !app.isAuthenticated || app.authType != Some(Validation) {
        showPasswordModal := true;
      } else {
        app.LoadPendingSubmissions(response);
      }
    }

    /** handleAuthenticate: an accepted password closes the modal and loads the
        pending submissions; a refused one changes nothing but the request sent. */
    method HandleAuthenticate(password: string, response: Fetched<bool>, pending: Fetched<Buckets>)
      returns (success: bool)
      requires app.Valid()
      modifies this, app
      ensures app.Valid()
      ensures app.sent == old(app.sent) + [PostAuth(Validation, password)]
      ensures success <==> response == Resolved(true)
      ensures success ==>
                && CanModerate() && !showPasswordModal
                && app.pendingSubmissions == if pending.Resolved? then pending.body else old(app.pendingSubmissions)
      ensures !success ==>
                && showPasswordModal == old(showPasswordModal)
                && app.isAuthenticated == old(app.isAuthenticated) && app.authType == old(app.authType)
                && app.pendingSubmissions == old(app.pendingSubmissions)
      ensures app.QuizView() == old(app.QuizView())
    {
      success := app.Authenticate(password, Validation, response);
      if success {
        showPasswordModal := false;
        app.LoadPendingSubmissions(pending);
      }
    }

    /** handleReject: clicking a row sends exactly one 'rejected' update, for that row. */
    method HandleReject(submissionId: int, response: Fetched<int>)
      requires app.Valid()
      modifies app
      ensures app.Valid()
      ensures app.sent == old(app.sent) + [PatchStatus(submissionId, Rejected)]
      ensures app.pendingSubmissions == if response.Resolved? then Pruned(old(app.pendingSubmissions), submissionId)
                                        else old(app.pendingSubmissions)
      ensures app.isAuthenticated == old(app.isAuthenticated) && app.authType == old(app.authType)
      ensures app.QuizView() == old(app.QuizView())
    {
      app.UpdateSubmissionStatus(submissionId, Rejected, response);
    }

    /** handleAcceptAll: the map is flattened once, in its key order `order`,
        and one 'approved' update is awaited per row of that snapshot, in turn;
        `responses[i]` is how the i-th request ended. */
    method HandleAcceptAll(order: seq<string>, responses: seq<Fetched<int>>)
      requires Enumerates(order, app.pendingSubmissions.Keys)
      requires |responses| == |Flatten(app.pendingSubmissions, order)|
      requires app.Valid()
      modifies app
      ensures app.Valid()
      ensures app.sent == old(app.sent) + Patches(Flatten(old(app.pendingSubmissions), order), Approved)
      ensures app.pendingSubmissions ==
                PrunedAll(old(app.pendingSubmissions), Flatten(old(app.pendingSubmissions), order), responses)
      ensures app.isAuthenticated == old(app.isAuthenticated) && app.authType == old(app.authType)
      ensures app.QuizView() == old(app.QuizView())
    {
      var all := Flatten(app.pendingSubmissions, order);
      var i := 0;
      while i < |all|
        invariant 0 <= i <= |all|
        invariant app.sent == old(app.sent) + Patches(all[..i], Approved)
        invariant app.pendingSubmissions == PrunedAll(old(app.pendingSubmissions), all[..i], responses[..i])
        invariant app.isAuthenticated == old(app.isAuthenticated) && app.authType == old(app.authType)
        invariant app.QuizView() == old(app.QuizView())
      {
        app.UpdateSubmissionStatus(all[i].id, Approved, responses[i]);
        assert all[..i + 1][..i] == all[..i] && responses[..i + 1][..i] == responses[..i];
        assert Patches(all[..i + 1], Approved) == Patches(all[..i], Approved) + [PatchStatus(all[i].id, Approved)];
        i := i + 1;
      }
      assert all[..i] == all && responses[..i] == responses;
    }

    method HandleLogout()
      modifies app
      ensures !app.isAuthenticated && app.authType == None && app.Valid()
      ensures app.pendingSubmissions == old(app.pendingSubmissions) && app.sent == old(app.sent)
      ensures app.QuizView() == old(app.QuizView())
    {
      app.Logout();
    }
  }
}
