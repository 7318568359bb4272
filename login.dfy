/** The three login strategies of `GreytHRAutomation` in
    src/automate-login.js and the cascade that tries them in turn. The page is
    a snapshot of what each strategy observes; typing, clicking and waiting
    are left to the browser. */
module Login {
  import opened Wrappers
  import opened Strings
  import opened Search

  /** The URL test every strategy applies after submitting the form. */
  predicate Authenticated(url: string) {
    Contains(url, "dashboard") || Contains(url, "home") || Contains(url, "greythr")
  }

  const ContextDestroyed: string := "Execution context was destroyed"

  /** What one selector of a strategy-1 loop finds: no element, an element
      that accepts the click and typing, or an element whose click or typing
      throws (the loop then moves on). */
  datatype Probe = Absent | Usable | Broken

  predicate IsUsable(p: Probe) { p == Usable }

  /** The selector loops of strategy 1: try each selector in order, skip a
      missing or failing element, stop at the first one that works. */
  method FillFirstUsable(probes: seq<Probe>) returns (filled: bool, used: nat)
    ensures filled <==> FirstIndex(probes, IsUsable).Some?
    ensures filled ==> used == FirstIndex(probes, IsUsable).value
  {
    filled := false;
    used := 0;
    for i := 0 to |probes|
      invariant !filled
      invariant forall j :: 0 <= j < i ==> probes[j] != Usable
    {
      if probes[i] == Absent {
        continue;
      }
      if probes[i] == Broken {
        continue;
      }
      filled := true;
      used := i;
      break;
    }
  }

  /** What strategy 1 observes: whether an input appears, the probes of the
      employee-id selectors (four), the password selectors (three) and the
      submit selectors (three), the error pressing Enter throws when no
      submit button was clicked, and the URL after the navigation and again
      after a further wait. */
  datatype Page1 = Page1(
    inputsAppear: bool, empId: seq<Probe>, password: seq<Probe>, submit: seq<Probe>,
    enterError: Option<string>, url: string, urlLater: string)

  /** Pressing Enter is the only step after the selector loops that can
      throw, and it is taken only when no submit button was clicked. */
  predicate EnterThrows(p: Page1) {
    FirstIndex(p.submit, IsUsable).None? && p.enterError.Some?
  }

  const NoInputs: string := "Page inputs not found or page not stable"
  const NoEmpIdField: string := "Could not find employee ID field"
  const NoPasswordField: string := "Could not find password field"
  const UrlMismatch1: string := "Login might have failed - URL doesn't match expected pattern"
  const UrlMismatch: string := "Login might have failed"

  /** `loginStrategy1`: it has no catch of its own. */
  function Strategy1(p: Page1): (r: Outcome<()>)
    ensures r.Returned? <==>
      p.inputsAppear && FirstIndex(p.empId, IsUsable).Some? && FirstIndex(p.password, IsUsable).Some?
      && !EnterThrows(p) && (Authenticated(p.url) || Authenticated(p.urlLater))
    ensures !p.inputsAppear ==> r == Threw(NoInputs)
    ensures p.inputsAppear && FirstIndex(p.empId, IsUsable).None? ==> r == Threw(NoEmpIdField)
  {
    if !p.inputsAppear then Threw(NoInputs)
    else if FirstIndex(p.empId, IsUsable).None? then Threw(NoEmpIdField)
    else if FirstIndex(p.password, IsUsable).None? then Threw(NoPasswordField)
    else if EnterThrows(p) then Threw(p.enterError.value)
    else if Authenticated(p.url) || Authenticated(p.urlLater) then Returned(())
    else Threw(UrlMismatch1)
  }

  /** `loginStrategy1` as the source runs it, with its three selector loops
      and their flags. */
  method RunStrategy1(p: Page1) returns (r: Outcome<()>)
    ensures r == Strategy1(p)
  {
    if !p.inputsAppear {
      return Threw(NoInputs);
    }
    var empIdFilled, _ := FillFirstUsable(p.empId);
    if !empIdFilled {
      return Threw(NoEmpIdField);
    }
    var passwordFilled, _ := FillFirstUsable(p.password);
    if !passwordFilled {
      return Threw(NoPasswordField);
    }
    var submitted, _ := FillFirstUsable(p.submit);
    if !submitted && p.enterError.Some? {
      return Threw(p.enterError.value);
    }
    if Authenticated(p.url) {
      return Returned(());
    }
    if !Authenticated(p.urlLater) {
      return Threw(UrlMismatch1);
    }
    return Returned(());
  }

  /** The catch of strategies 2 and 3: a destroyed execution context means a
      navigation happened, which counts as a login only when the URL after a
      wait is an authenticated one; anything else is rethrown. */
  function Recover(e: string, urlAfter: string): (r: Outcome<()>)
    ensures r.Returned? <==> Contains(e, ContextDestroyed) && Authenticated(urlAfter)
    ensures r.Threw? ==> r.msg == e
  {
    if Contains(e, ContextDestroyed) && Authenticated(urlAfter) then Returned(()) else Threw(e)
  }

  /** What strategy 2 observes: an error the page throws during the
      strategy, whether the XPath queries find the employee-id and password
      inputs, the URL after submitting, and the URL after the wait in the
      catch. */
  datatype Page2 = Page2(crash: Option<string>, empIdInput: bool, passInput: bool, url: string, urlAfterError: string)

  const NoEmpIdInput: string := "Employee ID input not found"
  const NoPassInput: string := "Password input not found"

  /** The error strategy 2 throws inside its `try`: the page's own error
      first, then the missing inputs, then the URL check. */
  function Strategy2Error(p: Page2): string {
    if p.crash.Some? then p.crash.value
    else if !p.empIdInput then NoEmpIdInput
    else if !p.passInput then NoPassInput
    else if !Authenticated(p.url) then UrlMismatch
    else ""
  }

  /** `loginStrategy2`: it returns when the `try` finishes, or when the
      caught error reports a destroyed context and the URL after the wait is
      an authenticated one; anything else rethrows the caught error. */
  function Strategy2(p: Page2): (r: Outcome<()>)
    ensures r.Returned? <==>
      (p.crash.None? && p.empIdInput && p.passInput && Authenticated(p.url))
      || (Contains(Strategy2Error(p), ContextDestroyed) && Authenticated(p.urlAfterError))
    ensures r.Threw? ==> r.msg == Strategy2Error(p)
    ensures p.crash.Some? ==>
      (r.Returned? <==> Contains(p.crash.value, ContextDestroyed) && Authenticated(p.urlAfterError))
      && (r.Threw? ==> r.msg == p.crash.value)
  {
    if p.crash.None? && p.empIdInput && p.passInput && Authenticated(p.url) then Returned(())
    else Recover(Strategy2Error(p), p.urlAfterError)
  }

  /** What strategy 3 observes: an error the page throws during the
      strategy, how many inputs the page has, the URL after pressing Enter,
      and the URL after the wait in the catch. */
  datatype Page3 = Page3(crash: Option<string>, inputCount: nat, url: string, urlAfterError: string)

  const TooFewInputs: string := "Not enough input fields found"

  /** The error strategy 3 throws inside its `try`: the page's own error
      first, then too few inputs, then the URL check. */
  function Strategy3Error(p: Page3): string {
    if p.crash.Some? then p.crash.value
    else if p.inputCount < 2 then TooFewInputs
    else if !Authenticated(p.url) then UrlMismatch
    else ""
  }

  /** `loginStrategy3`, with the same catch as strategy 2. */
  function Strategy3(p: Page3): (r: Outcome<()>)
    ensures r.Returned? <==>
      (p.crash.None? && p.inputCount >= 2 && Authenticated(p.url))
      || (Contains(Strategy3Error(p), ContextDestroyed) && Authenticated(p.urlAfterError))
    ensures r.Threw? ==> r.msg == Strategy3Error(p)
    ensures p.crash.Some? ==>
      (r.Returned? <==> Contains(p.crash.value, ContextDestroyed) && Authenticated(p.urlAfterError))
      && (r.Threw? ==> r.msg == p.crash.value)
  {
    if p.crash.None? && p.inputCount >= 2 && Authenticated(p.url) then Returned(())
    else Recover(Strategy3Error(p), p.urlAfterError)
  }

  /** The failures of strategies 2 and 3 that are not page errors are never
      recovered: their messages do not mention a destroyed context. */
  lemma OwnFailuresNotRecovered(p2: Page2, p3: Page3)
    requires p2.crash.None? && p3.crash.None?
    ensures Strategy2(p2).Returned? <==> p2.empIdInput && p2.passInput && Authenticated(p2.url)
    ensures Strategy3(p3).Returned? <==> p3.inputCount >= 2 && Authenticated(p3.url)
  {
    LongerNotContained(Strategy2Error(p2), ContextDestroyed);
    LongerNotContained(Strategy3Error(p3), ContextDestroyed);
  }

  /** `login`: strategy 2 if strategy 1 throws, strategy 3 if strategy 2
      throws; what strategy 3 throws is thrown by `login`. `tried` lists the
      strategies run, in order. */
  method Login(p1: Page1, p2: Page2, p3: Page3) returns (r: Outcome<()>, tried: seq<nat>)
    ensures Strategy1(p1).Returned? ==> r.Returned? && tried == [1]
    ensures Strategy1(p1).Threw? && Strategy2(p2).Returned? ==> r.Returned? && tried == [1, 2]
    ensures Strategy1(p1).Threw? && Strategy2(p2).Threw? ==> r == Strategy3(p3) && tried == [1, 2, 3]
  {
    var first := RunStrategy1(p1);
    if first.Returned? {
      return first, [1];
    }
    var second := Strategy2(p2);
    if second.Returned? {
      return second, [1, 2];
    }
    var third := Strategy3(p3);
    return third, [1, 2, 3];
  }
}
