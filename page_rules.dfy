/** The page-inspection rules of `GreytHRAutomation` in src/automate-login.js,
    as pure functions over snapshots of the attendance widget, the sign-in
    modal and the View Swipes table. A page snapshot lists elements in
    document order; an absent attribute or text is the empty string. */
module PageRules {
  import opened Wrappers
  import opened Strings
  import opened Search

  const SignInText: string := "Sign In"
  const SignOutText: string := "Sign Out"
  const ViewSwipesText: string := "View Swipes"
  const PrimaryShade: string := "primary"
  const PrimaryName: string := "primary"

  /** The `<button>` inside a `gt-button`'s shadow root. */
  datatype ShadowButton = ShadowButton(text: string, name: string, disabled: bool)

  /** A `gt-button` host: its own text, its `shade` and `name` attributes, and
      the button in its shadow root when it has one. */
  datatype GtButton = GtButton(ownText: string, shade: string, name: string, shadow: Option<ShadowButton>)

  /** The text a locator reads: the shadow button's text when there is one,
      the host's own text otherwise, trimmed. */
  function Label(b: GtButton): string {
    if b.shadow.Some? then Trim(b.shadow.value.text) else Trim(b.ownText)
  }

  /** The `name` the sign-in check reads: the shadow button's, else the
      host's, else "". */
  function NameOf(b: GtButton): string {
    if b.shadow.Some? && b.shadow.value.name != "" then b.shadow.value.name else b.name
  }

  // ---------------------------------------------------------------------
  // Locators in the attendance widget

  predicate IsSignInButton(b: GtButton) { Contains(Label(b), SignInText) }

  predicate IsSignOutButton(b: GtButton) { Contains(Label(b), SignOutText) && b.shade == PrimaryShade }

  predicate IsViewSwipesButton(b: GtButton) { b.name == ViewSwipesText || Contains(b.ownText, ViewSwipesText) }

  /** The `signIn` locator: the first button of the widget whose label contains
      "Sign In"; nothing without a widget. */
  function FindSignIn(widget: Option<seq<GtButton>>): (r: Option<nat>)
    ensures r.Some? ==> widget.Some? && r.value < |widget.value| && IsSignInButton(widget.value[r.value])
                        && forall j :: 0 <= j < r.value ==> !IsSignInButton(widget.value[j])
    ensures r.None? <==> widget.None? || forall j :: 0 <= j < |widget.value| ==> !IsSignInButton(widget.value[j])
  {
    if widget.None? then None else FirstIndex(widget.value, IsSignInButton)
  }

  /** The `signOut` locator: the first button whose label contains "Sign Out"
      and whose shade is "primary". */
  function FindSignOut(widget: Option<seq<GtButton>>): (r: Option<nat>)
    ensures r.Some? ==> widget.Some? && r.value < |widget.value| && IsSignOutButton(widget.value[r.value])
                        && forall j :: 0 <= j < r.value ==> !IsSignOutButton(widget.value[j])
    ensures r.None? <==> widget.None? || forall j :: 0 <= j < |widget.value| ==> !IsSignOutButton(widget.value[j])
  {
    if widget.None? then None else FirstIndex(widget.value, IsSignOutButton)
  }

  /** The `viewSwipes` locator: the first button named "View Swipes" or whose
      own text contains it. */
  function FindViewSwipes(widget: Option<seq<GtButton>>): (r: Option<nat>)
    ensures r.Some? ==> widget.Some? && r.value < |widget.value| && IsViewSwipesButton(widget.value[r.value])
                        && forall j :: 0 <= j < r.value ==> !IsViewSwipesButton(widget.value[j])
    ensures r.None? <==> widget.None? || forall j :: 0 <= j < |widget.value| ==> !IsViewSwipesButton(widget.value[j])
  {
    if widget.None? then None else FirstIndex(widget.value, IsViewSwipesButton)
  }

  // ---------------------------------------------------------------------
  // Verification after a swipe

  /** The two widget lookups of the page: `.widget-border.bg-primary-50` and
      `gt-attendance-info`. */
  datatype Widgets = Widgets(widgetDiv: Option<seq<GtButton>>, attendance: Option<seq<GtButton>>)

  /** `querySelector(WIDGET_DIV) || querySelector(ATTENDANCE_WIDGET)`. */
  function VerifyTarget(w: Widgets): Option<seq<GtButton>> {
    if w.widgetDiv.Some? then w.widgetDiv else w.attendance
  }

  /** A button that proves the swipe-in happened: shadowed, its text contains
      "Sign Out", shade "primary", name "primary" or empty. */
  predicate ConfirmsSignIn(b: GtButton) {
    b.shadow.Some? && Contains(Trim(b.shadow.value.text), SignOutText) && b.shade == PrimaryShade
    && (NameOf(b) == PrimaryName || NameOf(b) == "")
  }

  /** A button that proves the swipe-out happened: shadowed and its text
      contains "Sign In". */
  predicate ConfirmsSignOut(b: GtButton) {
    b.shadow.Some? && Contains(Trim(b.shadow.value.text), SignInText)
  }

  /** `verifySignInSuccess`. */
  function VerifySignInSuccess(w: Widgets): (ok: bool)
    ensures ok <==> VerifyTarget(w).Some? && exists j :: 0 <= j < |VerifyTarget(w).value| && ConfirmsSignIn(VerifyTarget(w).value[j])
  {
    var target := VerifyTarget(w);
    target.Some? && FirstIndex(target.value, ConfirmsSignIn).Some?
  }

  /** `verifySignOutSuccess`. */
  function VerifySignOutSuccess(w: Widgets): (ok: bool)
    ensures ok <==> VerifyTarget(w).Some? && exists j :: 0 <= j < |VerifyTarget(w).value| && ConfirmsSignOut(VerifyTarget(w).value[j])
  {
    var target := VerifyTarget(w);
    target.Some? && FirstIndex(target.value, ConfirmsSignOut).Some?
  }

  /** A widget that verifies a sign-in offers a Sign Out button to the
      `signOut` locator, and one that verifies a sign-out offers a Sign In
      button to the `signIn` locator: the checks and the locators agree. */
  lemma VerificationMatchesLocators(w: Widgets)
    ensures VerifySignInSuccess(w) ==> FindSignOut(VerifyTarget(w)).Some?
    ensures VerifySignOutSuccess(w) ==> FindSignIn(VerifyTarget(w)).Some?
  {
    if VerifySignInSuccess(w) {
      var j :| 0 <= j < |VerifyTarget(w).value| && ConfirmsSignIn(VerifyTarget(w).value[j]);
      assert IsSignOutButton(VerifyTarget(w).value[j]);
    }
    if VerifySignOutSuccess(w) {
      var j :| 0 <= j < |VerifyTarget(w).value| && ConfirmsSignOut(VerifyTarget(w).value[j]);
      assert IsSignInButton(VerifyTarget(w).value[j]);
    }
  }

  /** A button named anything but "primary" or "" never confirms a sign-in,
      whatever its text: a "Sign Out" button with another name is rejected. */
  lemma OtherNameNeverConfirms(b: GtButton)
    requires NameOf(b) != PrimaryName && NameOf(b) != ""
    ensures !ConfirmsSignIn(b)
  {
  }

  /** The shadow name wins over the host name; the host name is read only
      when the shadow button has none. */
  lemma NameFallsBackToHost(text: string, shade: string, host: string, own: string)
    ensures NameOf(GtButton(own, shade, host, Some(ShadowButton(text, "", false)))) == host
    ensures ConfirmsSignIn(GtButton(own, PrimaryShade, "", Some(ShadowButton(SignOutText, "", false))))
  {
    assert Trim(SignOutText) == SignOutText by {
      assert !IsSpace(SignOutText[0]) && !IsSpace(SignOutText[|SignOutText| - 1]);
      TrimStartFacts(SignOutText);
      assert TrimStart(SignOutText) == SignOutText;
      assert TrimEnd(SignOutText) == SignOutText;
    }
    assert SignOutText <= SignOutText;
  }

  // ---------------------------------------------------------------------
  // The sign-in modal's submit button

  predicate IsPrimarySignIn(b: GtButton) {
    b.shade == PrimaryShade && b.shadow.Some? && Contains(Trim(b.shadow.value.text), SignInText)
  }

  predicate IsShadowSignIn(b: GtButton) {
    b.shadow.Some? && Contains(Trim(b.shadow.value.text), SignInText)
  }

  const NoModalBody: string := "Modal body not found"
  const NoModalButtons: string := "No buttons found in modal body"
  const SubmitDisabled: string := "Sign In button found but is disabled"
  const NoSubmitButton: string := "No Sign In button found in modal body"

  /** The index of the button that would be clicked, or an error when a
      chosen button is disabled. */
  function Submit(buttons: seq<GtButton>, i: nat): Result<nat>
    requires i < |buttons| && buttons[i].shadow.Some?
  {
    if buttons[i].shadow.value.disabled then Err(SubmitDisabled) else Ok(i)
  }

  /** The modal's submit choice: a pass over primary-shade buttons, then a
      pass over every shadowed button; the first "Sign In" candidate of the
      pass that finds one is clicked, unless it is disabled. */
  function ChooseModalSubmit(modalBody: Option<seq<GtButton>>): (r: Result<nat>)
    ensures modalBody.None? ==> r == Err(NoModalBody)
    ensures modalBody.Some? && |modalBody.value| == 0 ==> r == Err(NoModalButtons)
    ensures r.Ok? ==> modalBody.Some? && r.value < |modalBody.value| && IsShadowSignIn(modalBody.value[r.value])
                      && !modalBody.value[r.value].shadow.value.disabled
    ensures r == Err(NoSubmitButton) <==>
      modalBody.Some? && |modalBody.value| > 0 && forall j :: 0 <= j < |modalBody.value| ==> !IsShadowSignIn(modalBody.value[j])
  {
    if modalBody.None? then Err(NoModalBody)
    else
      var buttons := modalBody.value;
      if |buttons| == 0 then Err(NoModalButtons)
      else match FirstIndex(buttons, IsPrimarySignIn)
        case Some(i) => Submit(buttons, i)
        case None =>
          match FirstIndex(buttons, IsShadowSignIn)
          case Some(i) => Submit(buttons, i)
          case None => Err(NoSubmitButton)
  }

  /** The first primary "Sign In" button decides: when it is disabled the
      search ends in failure even if an enabled candidate follows, and when
      it is enabled it is the one clicked. */
  lemma FirstPrimaryCandidateDecides(buttons: seq<GtButton>, i: nat)
    requires i < |buttons| && IsPrimarySignIn(buttons[i])
    requires forall j :: 0 <= j < i ==> !IsPrimarySignIn(buttons[j])
    ensures buttons[i].shadow.value.disabled ==> ChooseModalSubmit(Some(buttons)) == Err(SubmitDisabled)
    ensures !buttons[i].shadow.value.disabled ==> ChooseModalSubmit(Some(buttons)) == Ok(i)
  {
    var k := FirstIndex(buttons, IsPrimarySignIn);
    assert k.Some? && k.value == i;
  }

  /** With no primary candidate, the first shadowed "Sign In" button of any
      shade decides in the same way. */
  lemma TextPassDecides(buttons: seq<GtButton>, i: nat)
    requires forall j :: 0 <= j < |buttons| ==> !IsPrimarySignIn(buttons[j])
    requires i < |buttons| && IsShadowSignIn(buttons[i])
    requires forall j :: 0 <= j < i ==> !IsShadowSignIn(buttons[j])
    ensures buttons[i].shadow.value.disabled ==> ChooseModalSubmit(Some(buttons)) == Err(SubmitDisabled)
    ensures !buttons[i].shadow.value.disabled ==> ChooseModalSubmit(Some(buttons)) == Ok(i)
  {
    var k := FirstIndex(buttons, IsShadowSignIn);
    assert k.Some? && k.value == i;
  }

  // ---------------------------------------------------------------------
  // The View Swipes table

  /** What `viewSwipes` reports: whether an IN swipe was seen and its time
      text (which may be empty). */
  datatype SwipeProbe = SwipeProbe(hasInSwipe: bool, swipeTime: Option<string>)

  const NoSwipe: SwipeProbe := SwipeProbe(false, None)

  /** A row whose In/Out cell (column 1) contains "IN". */
  predicate IsInRow(cells: seq<string>) {
    |cells| >= 2 && Contains(Trim(cells[1]), "IN")
  }

  /** The table scan: the first row with at least two cells whose trimmed
      In/Out cell contains "IN" gives the trimmed Time cell (column 0). */
  function ScanSwipeRows(rows: seq<seq<string>>): (r: SwipeProbe)
    ensures r.hasInSwipe <==> exists i :: 0 <= i < |rows| && IsInRow(rows[i])
    ensures r.hasInSwipe ==> exists i :: 0 <= i < |rows| && IsInRow(rows[i]) && r.swipeTime == Some(Trim(rows[i][0]))
                                         && forall j :: 0 <= j < i ==> !IsInRow(rows[j])
    ensures !r.hasInSwipe ==> r == NoSwipe
  {
    match FirstIndex(rows, IsInRow)
    case Some(i) => SwipeProbe(true, Some(Trim(rows[i][0])))
    case None => NoSwipe
  }

  /** Rows before the first IN row do not matter, nor do rows after it. */
  lemma ScanIgnoresOtherRows(before: seq<seq<string>>, row: seq<string>, after: seq<seq<string>>)
    requires forall j :: 0 <= j < |before| ==> !IsInRow(before[j])
    requires IsInRow(row)
    ensures ScanSwipeRows(before + [row] + after) == SwipeProbe(true, Some(Trim(row[0])))
  {
    var rows := before + [row] + after;
    assert rows[|before|] == row;
    forall j | 0 <= j < |before| ensures !IsInRow(rows[j]) {
      assert rows[j] == before[j];
    }
  }

  /** The modal's result: no modal means no swipe. */
  function ReadSwipesModal(modal: Option<seq<seq<string>>>): (r: SwipeProbe)
    ensures modal.None? ==> r == NoSwipe
    ensures modal.Some? ==> r == ScanSwipeRows(modal.value)
  {
    if modal.None? then NoSwipe else ScanSwipeRows(modal.value)
  }

  // ---------------------------------------------------------------------
  // The sign-in location dropdown

  /** A `gt-dropdown`: whether it has a shadow root, the text of its
      `.dropdown-label label`, whether it is shown, whether its shadow root has
      the dropdown button, the `.item-label` texts of the items under its
      `.dropdown-container` (if it has one), and those of every item of its
      shadow root. `None` for an item without a label. */
  datatype Dropdown = Dropdown(
    hasShadow: bool, labelText: Option<string>, visible: bool, hasButton: bool,
    container: Option<seq<Option<string>>>, items: seq<Option<string>>)

  const LocationLabel: string := "Enter Sign-In Location"

  /** The dropdown of the sign-in location. */
  predicate IsLocationDropdown(d: Dropdown) {
    d.hasShadow && d.labelText.Some? && Contains(d.labelText.value, LocationLabel)
  }

  /** One poll of the page: some location dropdown is shown. */
  predicate DropdownShown(dropdowns: seq<Dropdown>) {
    exists i :: 0 <= i < |dropdowns| && IsLocationDropdown(dropdowns[i]) && dropdowns[i].visible
  }

  /** The click that opens the dropdown: succeeds on the first location
      dropdown that has its button. */
  predicate DropdownOpens(dropdowns: seq<Dropdown>) {
    exists i :: 0 <= i < |dropdowns| && IsLocationDropdown(dropdowns[i]) && dropdowns[i].hasButton
  }

  /** The first location dropdown, the one both option passes search. */
  function TargetDropdown(dropdowns: seq<Dropdown>): (r: Option<Dropdown>)
    ensures r.Some? ==> IsLocationDropdown(r.value) && r.value in dropdowns
    ensures r.None? <==> forall i :: 0 <= i < |dropdowns| ==> !IsLocationDropdown(dropdowns[i])
  {
    match FirstIndex(dropdowns, IsLocationDropdown)
    case Some(i) => Some(dropdowns[i])
    case None => None
  }

  /** The trimmed texts of the items that have a label, in order. */
  function Labels(items: seq<Option<string>>): (r: seq<string>)
    ensures |r| <= |items|
  {
    if |items| == 0 then []
    else
      var rest := Labels(items[..|items| - 1]);
      match items[|items| - 1]
      case Some(t) => rest + [Trim(t)]
      case None => rest
  }

  /** The first pass's rule, on the lower-cased target and label. */
  predicate FirstPassRule(target: string, text: string) {
    var t := ToLower(target);
    var x := ToLower(text);
    (Contains(t, "office") && Contains(x, "office"))
    || (Contains(t, "work from home") && Contains(x, "work from home"))
    || (Contains(t, "home") && Contains(x, "home") && !Contains(x, "office"))
    || (Contains(t, "client location") && Contains(x, "client location"))
    || (Contains(t, "on-duty") && Contains(x, "on-duty"))
  }

  /** The fallback's looser rule. */
  predicate FallbackRule(target: string, text: string) {
    var t := ToLower(target);
    var x := ToLower(text);
    (Contains(t, "office") && Contains(x, "office"))
    || (Contains(t, "work") && Contains(t, "home") && Contains(x, "work") && Contains(x, "home"))
    || (Contains(t, "home") && Contains(x, "home") && !Contains(x, "office"))
  }

  /** The first pass: the label clicked, or the labels it saw. */
  datatype FirstPass = Selected(option: string) | NotSelected(found: seq<string>)

  function OptionFirstPass(dropdowns: seq<Dropdown>, target: string): (r: FirstPass)
    ensures TargetDropdown(dropdowns).None? ==> r == NotSelected(["Dropdown not found"])
    ensures TargetDropdown(dropdowns).Some? && TargetDropdown(dropdowns).value.container.None? ==>
      r == NotSelected(["No dropdown-container"])
    ensures r.Selected? ==>
      (FirstPassRule(target, r.option)
       && exists i :: 0 <= i < |Labels(TargetDropdown(dropdowns).value.container.value)|
                      && r.option == Labels(TargetDropdown(dropdowns).value.container.value)[i]
                      && forall j :: 0 <= j < i ==> !FirstPassRule(target, Labels(TargetDropdown(dropdowns).value.container.value)[j]))
    ensures TargetDropdown(dropdowns).Some? && TargetDropdown(dropdowns).value.container.Some? ==>
      var labels := Labels(TargetDropdown(dropdowns).value.container.value);
      (r.NotSelected? <==> forall i :: 0 <= i < |labels| ==> !FirstPassRule(target, labels[i]))
      && (r.NotSelected? ==> r.found == labels)
  {
    match TargetDropdown(dropdowns)
    case None => NotSelected(["Dropdown not found"])
    case Some(d) =>
      if d.container.None? then NotSelected(["No dropdown-container"])
      else
        var labels := Labels(d.container.value);
        match FirstIndex(labels, x => FirstPassRule(target, x))
        case Some(i) => Selected(labels[i])
        case None => NotSelected(labels)
  }

  /** The fallback pass over every item of the dropdown's shadow root. */
  function OptionFallback(dropdowns: seq<Dropdown>, target: string): (ok: bool)
    ensures ok <==>
      (TargetDropdown(dropdowns).Some?
       && exists j :: 0 <= j < |Labels(TargetDropdown(dropdowns).value.items)|
                      && FallbackRule(target, Labels(TargetDropdown(dropdowns).value.items)[j]))
  {
    match TargetDropdown(dropdowns)
    case None => false
    case Some(d) => FirstIndex(Labels(d.items), x => FallbackRule(target, x)).Some?
  }

  /** The error raised when neither pass selects an option. */
  function SelectError(target: string, found: seq<string>): string {
    "Failed to select location: \"" + target + "\". Available: " + Join(found, ", ")
  }

  /** Selecting the work location: the first pass, then (only when the first
      pass saw at least one label) the fallback, else the error listing what
      the first pass saw. */
  function SelectLocation(dropdowns: seq<Dropdown>, target: string): (r: Result<()>)
    ensures OptionFirstPass(dropdowns, target).Selected? ==> r.Ok?
    ensures r.Ok? <==>
      OptionFirstPass(dropdowns, target).Selected?
      || (|OptionFirstPass(dropdowns, target).found| > 0 && OptionFallback(dropdowns, target))
    ensures r.Err? ==>
      (OptionFirstPass(dropdowns, target).NotSelected?
       && r.msg == SelectError(target, OptionFirstPass(dropdowns, target).found))
  {
    match OptionFirstPass(dropdowns, target)
    case Selected(_) => Ok(())
    case NotSelected(found) =>
      if |found| > 0 && OptionFallback(dropdowns, target) then Ok(()) else Err(SelectError(target, found))
  }

  /** When the first pass saw no label at all, the fallback is not tried even
      if it would match. */
  lemma NoLabelsNoFallback(dropdowns: seq<Dropdown>, target: string)
    requires OptionFirstPass(dropdowns, target) == NotSelected([])
    ensures SelectLocation(dropdowns, target) == Err(SelectError(target, []))
  {
  }

  /** The fallback is looser for office and home targets: every label the
      first pass accepts other than by the client-location or on-duty rule is
      accepted by the fallback too. */
  lemma FallbackCoversFirstPass(target: string, text: string)
    requires FirstPassRule(target, text)
    ensures FallbackRule(target, text)
      || Contains(ToLower(target), "client location") || Contains(ToLower(target), "on-duty")
  {
    var t, x := ToLower(target), ToLower(text);
    if Contains(t, "work from home") && Contains(x, "work from home") {
      WorkFromHomeParts(t);
      WorkFromHomeParts(x);
    }
  }

  /** A text mentioning "work from home" mentions "work" and "home". */
  lemma WorkFromHomeParts(s: string)
    requires Contains(s, "work from home")
    ensures Contains(s, "work") && Contains(s, "home")
  {
    var w := "work from home";
    assert w[0..4] == "work" && w[10..|w|] == "home";
    ContainsPiece(s, w, 0, 4);
    ContainsPiece(s, w, 10, |w|);
  }
}
