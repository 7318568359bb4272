/** The control flow of `signIn`, `signOut`, `handleSignInModal` and
    `viewSwipes` in src/automate-login.js, over snapshots of the page taken
    at the moments the source inspects it. */
module SignInFlow {
  import opened Wrappers
  import opened Strings
  import opened Search
  import opened PageRules

  /** At most this many polls for the location dropdown (500 ms apart). */
  const MaxAttempts: nat := 20

  /** Whether poll number `k` sees the dropdown; a poll past the recorded
      snapshots sees nothing. */
  predicate ShownAt(polls: seq<seq<Dropdown>>, k: nat) {
    k < |polls| && DropdownShown(polls[k])
  }

  /** The first poll from `k` on, within the `MaxAttempts` polls, that sees
      the dropdown. */
  function FirstShownFrom(polls: seq<seq<Dropdown>>, k: nat): (r: Option<nat>)
    requires k <= MaxAttempts
    ensures r.Some? ==> k <= r.value < MaxAttempts && ShownAt(polls, r.value)
                        && forall j :: k <= j < r.value ==> !ShownAt(polls, j)
    ensures r.None? <==> forall j :: k <= j < MaxAttempts ==> !ShownAt(polls, j)
    decreases MaxAttempts - k
  {
    if k == MaxAttempts then None
    else if ShownAt(polls, k) then Some(k)
    else FirstShownFrom(polls, k + 1)
  }

  /** The first of the `MaxAttempts` polls that sees the dropdown. */
  function FirstShown(polls: seq<seq<Dropdown>>): Option<nat> {
    FirstShownFrom(polls, 0)
  }

  /** The polling loop of `handleSignInModal`: it stops at the first poll
      that sees the dropdown, after at most `MaxAttempts` polls. `attempts` is
      the number of failed polls. */
  method PollDropdown(polls: seq<seq<Dropdown>>) returns (dropdownFound: bool, attempts: nat)
    ensures dropdownFound <==> FirstShown(polls).Some?
    ensures dropdownFound ==> attempts == FirstShown(polls).value
    ensures !dropdownFound ==> attempts == MaxAttempts
  {
    dropdownFound := false;
    attempts := 0;
    while !dropdownFound && attempts < MaxAttempts
      invariant attempts <= MaxAttempts
      invariant forall k :: 0 <= k < attempts ==> !ShownAt(polls, k)
      invariant dropdownFound ==> attempts < MaxAttempts && ShownAt(polls, attempts)
      decreases MaxAttempts - attempts, !dropdownFound
    {
      var found := attempts < |polls| && DropdownShown(polls[attempts]);
      if found {
        dropdownFound := true;
        break;
      }
      attempts := attempts + 1;
    }
    if dropdownFound {
      assert ShownAt(polls, attempts);
      var first := FirstShown(polls);
      assert first.Some? && !(first.value < attempts) && !(attempts < first.value);
    }
  }

  /** The page as `handleSignInModal` sees it: the dropdowns at each poll,
      the dropdowns once found (opened and searched for the option), the
      modal body's buttons, and the widget first matching
      `.widget-border.bg-primary-50, gt-attendance-info` after the submit. */
  datatype ModalPage = ModalPage(
    polls: seq<seq<Dropdown>>, dropdowns: seq<Dropdown>,
    modalBody: Option<seq<GtButton>>, mainWidget: Option<seq<GtButton>>)

  const OpenFailed: string := "Failed to open work location dropdown: Dropdown button not found"
  const VerifyFailedPrefix: string := "Sign-in verification failed: "
  const VerifyFailedSuffix: string := ". Sign Out button not found - sign-in may not have completed successfully."
  const NoMainWidget: string := "Main widget not found"
  const NoSignOutInWidget: string := "Sign Out button not found in main widget"

  /** The catch of `handleSignInModal`: a selector timeout means "no modal". */
  function Caught(msg: string): (r: Outcome<bool>)
    ensures Contains(msg, "Waiting for selector") ==> r == Returned(false)
    ensures !Contains(msg, "Waiting for selector") ==> r == Threw(msg)
  {
    if Contains(msg, "Waiting for selector") then Returned(false) else Threw(msg)
  }

  /** `handleSignInModal` for the configured work location. The remarks
      step cannot fail and changes no outcome. */
  function HandleSignInModal(page: ModalPage, workLocation: string): Outcome<bool> {
    if FirstShown(page.polls).None? then Returned(false)
    else if !DropdownOpens(page.dropdowns) then Caught(OpenFailed)
    else match SelectLocation(page.dropdowns, workLocation)
      case Err(e) => Caught(e)
      case Ok(_) =>
        match ChooseModalSubmit(page.modalBody)
        case Err(reason) => Caught("Failed to click Sign In button: " + reason)
        case Ok(_) =>
          if page.mainWidget.None? then Caught(VerifyFailedPrefix + NoMainWidget + VerifyFailedSuffix)
          else if FirstIndex(page.mainWidget.value, ConfirmsSignIn).None? then
            Caught(VerifyFailedPrefix + NoSignOutInWidget + VerifyFailedSuffix)
          else Returned(true)
  }

  /** The modal is handled only when every step succeeded: the dropdown
      appeared and opened, the location was selected, an enabled "Sign In"
      button was clicked and the main widget then shows a confirming
      "Sign Out" button. */
  lemma ModalHandledMeansConfirmed(page: ModalPage, workLocation: string)
    ensures HandleSignInModal(page, workLocation) == Returned(true) <==>
      FirstShown(page.polls).Some? && DropdownOpens(page.dropdowns)
      && SelectLocation(page.dropdowns, workLocation).Ok? && ChooseModalSubmit(page.modalBody).Ok?
      && page.mainWidget.Some?
      && exists j :: 0 <= j < |page.mainWidget.value| && ConfirmsSignIn(page.mainWidget.value[j])
  {
  }

  /** If no poll sees the dropdown, the modal is not handled, whatever the
      rest of the page shows. */
  lemma NoDropdownNoModal(page: ModalPage, workLocation: string)
    requires forall k :: 0 <= k < MaxAttempts ==> !ShownAt(page.polls, k)
    ensures HandleSignInModal(page, workLocation) == Returned(false)
  {
  }

  // ---------------------------------------------------------------------
  // signIn and signOut

  /** The page as `signIn` sees it: the attendance widget's buttons, the
      modal, and the widgets after the swipe. */
  datatype SignInPage = SignInPage(widget: Option<seq<GtButton>>, modal: ModalPage, after: Widgets)

  /** `signIn`: every failure and every error becomes `false`. */
  function SignIn(page: SignInPage, workLocation: string): bool {
    if FindSignIn(page.widget).None? then false
    else if HandleSignInModal(page.modal, workLocation) != Returned(true) then false
    else VerifySignInSuccess(page.after)
  }

  /** A sign-in succeeds exactly when the widget offered "Sign In", the modal
      was handled and the widget afterwards confirms it; then the `signOut`
      locator would find a Sign Out button. A missing dropdown always means
      failure. */
  lemma SignInSucceedsOnlyWhenVerified(page: SignInPage, workLocation: string)
    ensures SignIn(page, workLocation) <==>
      FindSignIn(page.widget).Some? && HandleSignInModal(page.modal, workLocation) == Returned(true)
      && VerifySignInSuccess(page.after)
    ensures SignIn(page, workLocation) ==> FindSignOut(VerifyTarget(page.after)).Some?
    ensures FirstShown(page.modal.polls).None? ==> !SignIn(page, workLocation)
  {
    VerificationMatchesLocators(page.after);
  }

  /** The page as `signOut` sees it. */
  datatype SignOutPage = SignOutPage(widget: Option<seq<GtButton>>, after: Widgets)

  /** `signOut`: a primary "Sign Out" button, then the "Sign In" check. */
  function SignOut(page: SignOutPage): bool {
    FindSignOut(page.widget).Some? && VerifySignOutSuccess(page.after)
  }

  /** A sign-out succeeds exactly when the widget offered a primary
      "Sign Out" button and afterwards offers "Sign In" again, which the
      `signIn` locator would find. */
  lemma SignOutSucceedsOnlyWhenVerified(page: SignOutPage)
    ensures SignOut(page) <==>
      page.widget.Some? && (exists j :: 0 <= j < |page.widget.value| && IsSignOutButton(page.widget.value[j]))
      && VerifySignOutSuccess(page.after)
    ensures SignOut(page) ==> FindSignIn(VerifyTarget(page.after)).Some?
  {
    VerificationMatchesLocators(page.after);
  }

  // ---------------------------------------------------------------------
  // viewSwipes

  /** What happens to the swipes modal's close button. */
  datatype CloseStep = NoCloseButton | Closed | CloseThrows(escapeThrows: bool)

  /** The page as `viewSwipes` sees it: the attendance widget, whether the
      modal appears within the wait, the modal's rows, and the close step. */
  datatype SwipesPage = SwipesPage(
    widget: Option<seq<GtButton>>, modalAppears: bool, modal: Option<seq<seq<string>>>, close: CloseStep)

  /** The result of `viewSwipes` and whether Escape was pressed. */
  datatype SwipesRun = SwipesRun(probe: SwipeProbe, pressedEscape: bool)

  function ViewSwipes(page: SwipesPage): (r: SwipesRun)
    ensures r.probe.hasInSwipe ==>
      (FindViewSwipes(page.widget).Some? && page.modalAppears && r.probe == ReadSwipesModal(page.modal))
    ensures r.pressedEscape <==> FindViewSwipes(page.widget).Some? && page.modalAppears && page.close.CloseThrows?
    ensures FindViewSwipes(page.widget).None? || !page.modalAppears ==> r.probe == NoSwipe
    ensures FindViewSwipes(page.widget).Some? && page.modalAppears && page.close != CloseThrows(true) ==>
      r.probe == ReadSwipesModal(page.modal)
  {
    if FindViewSwipes(page.widget).None? || !page.modalAppears then SwipesRun(NoSwipe, false)
    else
      var data := ReadSwipesModal(page.modal);
      match page.close
      case NoCloseButton => SwipesRun(data, false)
      case Closed => SwipesRun(data, false)
      case CloseThrows(escapeThrows) => SwipesRun(if escapeThrows then NoSwipe else data, true)
  }

  /** Escape is pressed only when clicking the close button throws, never
      when the button is absent or the click closes the modal; and a failing
      Escape discards the rows read. */
  lemma EscapeOnlyAfterFailedClose(page: SwipesPage)
    requires FindViewSwipes(page.widget).Some? && page.modalAppears
    ensures page.close == NoCloseButton ==> ViewSwipes(page) == SwipesRun(ReadSwipesModal(page.modal), false)
    ensures page.close == Closed ==> ViewSwipes(page) == SwipesRun(ReadSwipesModal(page.modal), false)
    ensures page.close == CloseThrows(false) ==> ViewSwipes(page) == SwipesRun(ReadSwipesModal(page.modal), true)
    ensures page.close == CloseThrows(true) ==> ViewSwipes(page) == SwipesRun(NoSwipe, true)
  {
  }
}
