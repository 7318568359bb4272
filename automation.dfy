/** The `GreytHRAutomation` class of src/automate-login.js: the daily-log
    bookkeeping in Firestore, the `swipeIn` reconciliation, the
    `safeElementAction` retry loop and the failure path of `run`. The browser
    is outside the model: every page the flow looks at is an input snapshot,
    and every clock reading (`today`, the write timestamp, the local time of
    day) is an input string. */
module Automation {
  import opened Wrappers
  import opened Strings
  import opened IsoDate
  import opened Firestore
  import opened PageRules
  import opened SignInFlow
  import opened Search
  import opened Login

  const Done: string := "DONE"
  const Failed: string := "FAILED"
  const Skip: string := "SKIP"
  const Pending: string := "PENDING"

  /** What a PENDING record's message must contain to end a run early. */
  const BeforeInitialDay: string := "before initial day"

  const AlreadyCompleted: string := "Task already completed for today"
  const MissingCredentials: string := "Missing credentials: EMP_ID and PASSWORD must be set in .env file"
  const NoWidget: string := "Attendance widget (gt-attendance-info) not found on page"
  const SignInFailed: string := "Sign-in failed - could not complete sign-in process"
  const SignInErrorPrefix: string := "Sign-in error: "

  const DefaultWorkLocation: string := "Office"

  /** The fields `updateStatus(status, extra)` writes into the day's record;
      `extra` is the optional second argument, "" standing for a falsy one.
      An unset employee id is `undefined`, a field the store drops, so the
      write then leaves any stored `empId` alone. Before the cutover date the
      requested status is ignored. */
  function StatusFields(today: string, status: string, extra: string, now: string, empId: Option<string>): (r: Record)
    ensures "status" in r && "timestamp" in r && r["timestamp"] == Str(now)
    ensures "empId" in r <==> empId.Some?
    ensures empId.Some? ==> r["empId"] == Str(empId.value)
    ensures IsBeforeInitialDate(today) ==>
      r["status"] == Str(Pending) && "message" in r && r["message"] == Str(BeforeInitialDayMessage)
      && "swipeTime" !in r && "failureReason" !in r
    ensures !IsBeforeInitialDate(today) ==> r["status"] == Str(status)
    ensures !IsBeforeInitialDate(today) ==>
      ("swipeTime" in r <==> status == Done && extra != "")
      && ("failureReason" in r <==> status == Failed && extra != "")
      && ("message" in r <==> status != Done && status != Failed && extra != "")
    ensures !IsBeforeInitialDate(today) ==>
      forall k :: k in r && k != "status" && k != "timestamp" && k != "empId" ==> r[k] == Str(extra)
  {
    var id: Record := if empId.Some? then map["empId" := Str(empId.value)] else map[];
    if IsBeforeInitialDate(today) then
      map["status" := Str(Pending), "message" := Str(BeforeInitialDayMessage), "timestamp" := Str(now)] + id
    else
      var base := map["status" := Str(status), "timestamp" := Str(now)] + id;
      if extra == "" then base
      else if status == Done then base["swipeTime" := Str(extra)]
      else if status == Failed then base["failureReason" := Str(extra)]
      else base["message" := Str(extra)]
  }

  /** A stored record that makes `checkStatus` end the run: DONE, SKIP, or
      PENDING with a string message mentioning "before initial day". */
  predicate Settled(data: Record) {
    FieldIs(data, "status", Done) || FieldIs(data, "status", Skip)
    || (FieldIs(data, "status", Pending) && "message" in data && Truthy(data["message"])
        && data["message"].Str? && Contains(data["message"].s, BeforeInitialDay))
  }

  /** Any status write on or after the cutover carries the requested status,
      so a DONE write settles the day and a FAILED write unsettles it,
      whatever the record held before. */
  lemma {:induction false} WriteDecidesSettled(base: Record, today: string, status: string, extra: string, now: string, empId: Option<string>)
    requires !IsBeforeInitialDate(today)
    ensures status == Done ==> Settled(Merge(base, StatusFields(today, status, extra, now, empId)))
    ensures status == Failed ==> !Settled(Merge(base, StatusFields(today, status, extra, now, empId)))
  {
    var r := Merge(base, StatusFields(today, status, extra, now, empId));
    assert r["status"] == Str(status);
    if status == Failed {
      assert Failed != Done && Failed != Skip && Failed != Pending;
    }
  }

  /** A write made without an employee id keeps the stored one. */
  lemma UnsetEmpIdKeepsStored(base: Record, today: string, status: string, extra: string, now: string)
    requires "empId" in base
    ensures Merge(base, StatusFields(today, status, extra, now, None))["empId"] == base["empId"]
  {
    assert "empId" !in StatusFields(today, status, extra, now, None);
  }

  /** The fixed message contains the marker `checkStatus` looks for. */
  lemma MessageHasMarker()
    ensures Contains(BeforeInitialDayMessage, BeforeInitialDay)
  {
    var p := "Data not available - date is ";
    var q := " (November 20, 2025)";
    assert BeforeInitialDayMessage == p + BeforeInitialDay + q;
    assert BeforeInitialDay <= BeforeInitialDay;
    ContainsInfix(p, BeforeInitialDay, q, BeforeInitialDay);
  }

  /** Before the cutover every status write, whatever status it asks for,
      leaves a record that settles the day. */
  lemma {:induction false} CutoverWriteSettles(base: Record, today: string, status: string, extra: string, now: string, empId: Option<string>)
    requires IsBeforeInitialDate(today)
    ensures Settled(Merge(base, StatusFields(today, status, extra, now, empId)))
  {
    var r := Merge(base, StatusFields(today, status, extra, now, empId));
    assert r["status"] == Str(Pending) && r["message"] == Str(BeforeInitialDayMessage);
    MessageHasMarker();
  }

  /** The text of the configured work location that the sign-in modal
      matches against. */
  function LocationText(v: Value): string {
    if v.Str? then v.s else ""
  }

  /** How `init` ends: go on, exit the process with a code, or throw. */
  datatype Step = Proceed | Exit(code: int) | Throw(msg: string)

  /** The pages `swipeIn` sees: whether the attendance widget appears, the
      first View Swipes probe, the sign-in pages, whether the "View Swipes"
      button appears after signing in, the second probe, and the local time
      of day used when no swipe time can be read. */
  datatype SwipeSession = SwipeSession(
    widgetAppears: bool, probe: SwipesPage, signIn: SignInPage,
    viewSwipesAppears: bool, reprobe: SwipesPage, clock: string)

  /** The swipe time a successful sign-in records: the one read again from
      the View Swipes modal when it is non-empty, else the local clock. */
  function RecordedSwipeTime(s: SwipeSession): (t: string)
    ensures s.viewSwipesAppears && ViewSwipes(s.reprobe).probe.swipeTime.GetOr("") != "" ==>
      t == ViewSwipes(s.reprobe).probe.swipeTime.value
    ensures !s.viewSwipesAppears || ViewSwipes(s.reprobe).probe.swipeTime.GetOr("") == "" ==> t == s.clock
  {
    var again := if s.viewSwipesAppears then ViewSwipes(s.reprobe).probe.swipeTime.GetOr("") else "";
    if again != "" then again else s.clock
  }

  /** Everything after `init` that `run` does inside its `try`: launch the
      browser, navigate (which catches its own errors, so it never throws),
      log in, swipe in, close the browser. A step that throws is given by its
      error message. */
  datatype Session = Session(
    launchError: Option<string>,
    p1: Page1, p2: Page2, p3: Page3, swipe: SwipeSession, closeError: Option<string>)

  /** How `run` ends. */
  datatype Ending = Completed | Exited(code: int) | Raised(msg: string)

  /** The day's record shows the failure: status FAILED and, for a non-empty
      message, that message as the reason. */
  predicate FailureRecorded(data: Record, msg: string) {
    FieldIs(data, "status", Failed) && (msg != "" ==> FieldIs(data, "failureReason", msg))
  }

  /** Some strategy of the `login` cascade logs in. */
  predicate LoggedIn(s: Session) {
    Strategy1(s.p1).Returned? || Strategy2(s.p2).Returned? || Strategy3(s.p3).Returned?
  }

  /** How the steps of `run` after `init` end on the pages `s`, the sign-in
      modal being asked for `location`: the first step that throws decides
      (the launch, the cascade, whose last error is strategy 3's, the
      widget, the sign-in, then the close). */
  function StepsOutcome(s: Session, location: string): Outcome<()> {
    if s.launchError.Some? then Threw(s.launchError.value)
    else if !LoggedIn(s) then Strategy3(s.p3)
    else if !s.swipe.widgetAppears then Threw(NoWidget)
    else if !ViewSwipes(s.swipe.probe).probe.hasInSwipe && !SignIn(s.swipe.signIn, location) then Threw(SignInFailed)
    else if s.closeError.Some? then Threw(s.closeError.value)
    else Returned(())
  }

  /** The credentials `validateCredentials` accepts: a set, non-empty
      employee id and a non-empty password. */
  predicate CredentialsSet(empId: Option<string>, password: string) {
    empId.Some? && empId.value != "" && password != ""
  }

  /** How `run` ends, from whether `checkStatus` stops it, whether the
      credentials are set, and how the later steps end. As a script it exits,
      with 0 on the early stop and 1 on every failure; as a module it
      rethrows what stopped it. */
  function RunEnding(standalone: bool, stops: bool, credentialsSet: bool, steps: Outcome<()>): (e: Ending)
    ensures e == Completed <==> !stops && credentialsSet && steps.Returned?
    ensures standalone && e != Completed ==> e == Exited(if stops then 0 else 1)
    ensures !standalone ==> !e.Exited?
    ensures !standalone && stops ==> e == Raised(AlreadyCompleted)
    ensures !standalone && !stops && !credentialsSet ==> e == Raised(MissingCredentials)
    ensures !standalone && !stops && credentialsSet && steps.Threw? ==> e == Raised(steps.msg)
  {
    if stops then (if standalone then Exited(0) else Raised(AlreadyCompleted))
    else if !credentialsSet then (if standalone then Exited(1) else Raised(MissingCredentials))
    else if steps.Returned? then Completed
    else if standalone then Exited(1) else Raised(steps.msg)
  }

  /** `fetchWorkLocationConfig` on the store `db`: the stored location and
      remarks, each replaced by its default ("Office", "") when falsy; the
      defaults when there is no db, no document or a failing read. */
  function FetchWorkLocationConfig(db: Store?): (r: (Value, Value))
    reads db
    ensures Truthy(r.0)
    ensures db == null || !db.up || ConfigPath("work_location") !in db.docs ==>
      r == (Str(DefaultWorkLocation), Str(""))
    ensures db != null && db.up && ConfigPath("work_location") in db.docs ==>
      var data := db.docs[ConfigPath("work_location")];
      (("workLocation" in data && Truthy(data["workLocation"])) ==> r.0 == data["workLocation"])
      && (!("workLocation" in data && Truthy(data["workLocation"])) ==> r.0 == Str(DefaultWorkLocation))
      && (("remarks" in data && Truthy(data["remarks"])) ==> r.1 == data["remarks"])
      && (!("remarks" in data && Truthy(data["remarks"])) ==> r.1 == Str(""))
  {
    if db == null then (Str(DefaultWorkLocation), Str(""))
    else match db.Read(ConfigPath("work_location"))
      case Found(data) => (FieldOr(data, "workLocation", Str(DefaultWorkLocation)), FieldOr(data, "remarks", Str("")))
      case _ => (Str(DefaultWorkLocation), Str(""))
  }

  /** The location name the sign-in modal is asked for. */
  function WorkLocation(db: Store?): string
    reads db
  {
    LocationText(FetchWorkLocationConfig(db).0)
  }

  // ---------------------------------------------------------------------
  // safeElementAction

  /** The error `safeElementAction` retries on. */
  predicate Retryable<T>(o: Outcome<T>) {
    o.Threw? && Contains(o.msg, ContextDestroyed)
  }

  /** `safeElementAction(action, retries)` from attempt `i` on, where
      `attempts[i]` is how the `i`-th call of `action` ends; `None` is the
      `undefined` a loop that never runs returns. */
  function RetryFrom<T>(attempts: seq<Outcome<T>>, retries: int, i: nat): Option<Outcome<T>>
    requires retries <= |attempts|
    decreases retries - i
  {
    if i >= retries then None
    else if Retryable(attempts[i]) && i < retries - 1 then RetryFrom(attempts, retries, i + 1)
    else Some(attempts[i])
  }

  /** The outcome of a not-to-be-retried attempt counts. */
  predicate Final<T>(o: Outcome<T>) { !Retryable(o) }

  /** The attempt a run of at least one try ends with: the first final one
      among all but the last, else the last. */
  function Chosen<T>(attempts: seq<Outcome<T>>, retries: int): (k: nat)
    requires 1 <= retries <= |attempts|
    ensures k < retries
  {
    match FirstIndex(attempts[..retries - 1], Final) case Some(k) => k case None => retries - 1
  }

  /** With at least one try, `safeElementAction` ends as the first attempt
      that returned or threw anything but a destroyed context, or as the last
      attempt allowed; with no try it returns `undefined`. */
  lemma {:induction false} RetryPicksFirstFinal<T>(attempts: seq<Outcome<T>>, retries: int)
    requires retries <= |attempts|
    ensures retries <= 0 ==> RetryFrom(attempts, retries, 0) == None
    ensures retries >= 1 ==>
      RetryFrom(attempts, retries, 0) ==
        Some(attempts[Chosen(attempts, retries)])
  {
    if retries >= 1 {
      RetryPicksFrom(attempts, retries, 0);
    }
  }

  lemma {:induction false} RetryPicksFrom<T>(attempts: seq<Outcome<T>>, retries: int, i: nat)
    requires 1 <= retries <= |attempts| && i < retries
    requires forall j :: 0 <= j < i ==> !Final(attempts[j])
    ensures RetryFrom(attempts, retries, i) ==
      Some(attempts[Chosen(attempts, retries)])
    decreases retries - i
  {
    var pre := attempts[..retries - 1];
    var f := FirstIndex(pre, Final);
    if i == retries - 1 {
      assert f.None? by {
        forall j | 0 <= j < |pre| ensures !Final(pre[j]) { }
      }
    } else if Final(attempts[i]) {
      assert pre[i] == attempts[i];
      assert f == Some(i);
    } else {
      RetryPicksFrom(attempts, retries, i + 1);
    }
  }

  /** `safeElementAction`: calls the action until it returns, throws an
      error other than a destroyed context, or has been tried `retries`
      times; the last allowed attempt's error is thrown whatever it is. */
  method SafeElementAction<T>(attempts: seq<Outcome<T>>, retries: int) returns (r: Option<Outcome<T>>, calls: nat)
    requires retries <= |attempts|
    ensures r == RetryFrom(attempts, retries, 0)
    ensures retries <= 0 ==> calls == 0
    ensures retries >= 1 ==> 1 <= calls <= retries
  {
    var i := 0;
    calls := 0;
    while i < retries
      invariant 0 <= i && calls == i
      invariant retries >= 1 ==> i < retries
      invariant retries <= 0 ==> i == 0
      invariant RetryFrom(attempts, retries, 0) == RetryFrom(attempts, retries, i)
      decreases retries - i
    {
      calls := calls + 1;
      var result := attempts[i];
      if result.Returned? {
        return Some(result), calls;
      }
      if Contains(result.msg, ContextDestroyed) && i < retries - 1 {
        i := i + 1;
        continue;
      }
      return Some(result), calls;
    }
    r := None;
  }

  // ---------------------------------------------------------------------
  // The automation object

  class GreytHRAutomation {
    /** `process.env.EMP_ID`: `None` when the variable is not set. */
    const empId: Option<string>
    const password: string
    const force: bool
    /** Whether the file runs as a script (it then exits the process) or as
        a module the server imported (it then throws). */
    const standalone: bool
    /** What `initFirebase` leaves in `this.db`: null when Firebase could
        not be set up. */
    const db: Store?

    constructor (empId: Option<string>, password: string, force: bool, standalone: bool, db: Store?)
      ensures this.empId == empId && this.password == password && this.force == force
      ensures this.standalone == standalone && this.db == db
    {
      this.empId := empId;
      this.password := password;
      this.force := force;
      this.standalone := standalone;
      this.db := db;
    }

    /** The documents after `updateStatus(status, extra)` on `today`, from
        `docs`: a merge upsert of the day's record when the store is there
        and reachable, nothing otherwise. */
    function After(docs: map<DocPath, Record>, today: string, now: string, status: string, extra: string): (r: map<DocPath, Record>)
      ensures db == null || !db.up ==> r == docs
      ensures forall p :: p in docs && p != DailyLogPath(today) ==> p in r && r[p] == docs[p]
      ensures db != null && db.up ==> r.Keys == docs.Keys + {DailyLogPath(today)}
      ensures db != null && db.up ==>
        r[DailyLogPath(today)] == Merge(Existing(docs, DailyLogPath(today)), StatusFields(today, status, extra, now, empId))
    {
      if db == null || !db.up then docs
      else
        var p := DailyLogPath(today);
        docs[p := Merge(Existing(docs, p), StatusFields(today, status, extra, now, empId))]
    }

    /** `updateStatus(status, extra)`: builds the fields field by field and
        merges them into the day's record; a missing db or a failing write
        changes nothing and throws nothing. */
    method UpdateStatus(today: string, now: string, status: string, extra: string)
      modifies db
      ensures db != null ==> db.docs == After(old(db.docs), today, now, status, extra)
    {
      if db == null {
        return;
      }
      var docRef := DailyLogPath(today);
      if IsBeforeInitialDate(today) {
        var pendingData := map["status" := Str(Pending), "message" := Str(BeforeInitialDayMessage),
                               "timestamp" := Str(now)];
        if empId.Some? {
          pendingData := pendingData["empId" := Str(empId.value)];
        }
        assert pendingData == StatusFields(today, status, extra, now, empId);
        var written := db.SetMerge(docRef, pendingData);
        return;
      }
      var updateData := map["status" := Str(status), "timestamp" := Str(now)];
      if empId.Some? {
        updateData := updateData["empId" := Str(empId.value)];
      }
      if extra != "" {
        if status == Done {
          updateData := updateData["swipeTime" := Str(extra)];
        } else if status == Failed {
          updateData := updateData["failureReason" := Str(extra)];
        } else {
          updateData := updateData["message" := Str(extra)];
        }
      }
      assert updateData == StatusFields(today, status, extra, now, empId);
      var written := db.SetMerge(docRef, updateData);
    }

    /** Whether `checkStatus` ends the run, judged on the documents before
        the call. */
    predicate StopsEarly(docs: map<DocPath, Record>, today: string) {
      !force && db != null
      && (IsBeforeInitialDate(today) || (db.up && DailyLogPath(today) in docs && Settled(docs[DailyLogPath(today)])))
    }

    /** `checkStatus`: with `force`, or without a db, the run goes on and the
        store is untouched; before the cutover the day is marked PENDING and
        the run stops; otherwise it stops exactly on a settled record, and a
        failing read lets it go on. */
    method CheckStatus(today: string, now: string) returns (stop: bool)
      modifies db
      ensures db == null ==> !stop
      ensures db != null ==> stop == StopsEarly(old(db.docs), today)
      ensures db != null ==>
        db.docs == if !force && IsBeforeInitialDate(today) then After(old(db.docs), today, now, Pending, "") else old(db.docs)
    {
      if force {
        return false;
      }
      if db == null {
        return false;
      }
      if IsBeforeInitialDate(today) {
        UpdateStatus(today, now, Pending, "");
        return true;
      }
      stop := false;
      var doc := db.Read(DailyLogPath(today));
      if doc.Found? {
        var data := doc.data;
        if FieldIs(data, "status", Done) {
          stop := true;
        } else if FieldIs(data, "status", Skip) {
          stop := true;
        } else if FieldIs(data, "status", Pending) && "message" in data && Truthy(data["message"])
                  && data["message"].Str? && Contains(data["message"].s, BeforeInitialDay) {
          stop := true;
        }
      }
    }

    /** `validateCredentials`: a missing employee id or password exits with
        code 1 as a script and throws as a module. */
    function ValidateCredentials(): (s: Step)
      ensures s == Proceed <==> CredentialsSet(empId, password)
      ensures s != Proceed ==> s == if standalone then Exit(1) else Throw(MissingCredentials)
    {
      if empId.None? || empId.value == "" || password == "" then
        if standalone then Exit(1) else Throw(MissingCredentials)
      else Proceed
    }

    /** `init` up to the browser launch. `stoppedEarly` tells the early stop
        of `checkStatus` apart from other outcomes. */
    method Init(today: string, now: string) returns (s: Step, stoppedEarly: bool)
      modifies db
      ensures db != null ==>
        db.docs == if !force && IsBeforeInitialDate(today) then After(old(db.docs), today, now, Pending, "") else old(db.docs)
      ensures stoppedEarly <==> db != null && StopsEarly(old(db.docs), today)
      ensures stoppedEarly ==> s == if standalone then Exit(0) else Throw(AlreadyCompleted)
      ensures !stoppedEarly ==> s == ValidateCredentials()
    {
      stoppedEarly := CheckStatus(today, now);
      if stoppedEarly {
        s := if standalone then Exit(0) else Throw(AlreadyCompleted);
        return;
      }
      s := ValidateCredentials();
    }

    /** The documents after `swipeIn` on the pages `s`, when the modal is
        asked for `location`. */
    function SwipeDocs(docs: map<DocPath, Record>, today: string, now: string, s: SwipeSession, location: string): map<DocPath, Record>
      reads db
    {
      if !s.widgetAppears then docs
      else
        var first := ViewSwipes(s.probe).probe;
        if first.hasInSwipe then
          if first.swipeTime.GetOr("") != "" then After(docs, today, now, Done, first.swipeTime.value) else docs
        else if !SignIn(s.signIn, location) then After(docs, today, now, Failed, SignInErrorPrefix + SignInFailed)
        else After(docs, today, now, Done, RecordedSwipeTime(s))
    }

    /** `swipeIn`. A missing widget throws before anything is written. A
        positive first probe means sign-in is never attempted, and DONE is
        written only if a swipe time was read. Otherwise a failed sign-in
        writes FAILED with "Sign-in error: ..." and rethrows, and a
        successful one writes DONE with the time read again, or the clock. */
    method SwipeIn(today: string, now: string, s: SwipeSession) returns (r: Outcome<()>, signInCalled: bool)
      modifies db
      ensures !s.widgetAppears ==> r == Threw(NoWidget) && !signInCalled
      ensures !s.widgetAppears && db != null ==> db.docs == old(db.docs)
      ensures s.widgetAppears && ViewSwipes(s.probe).probe.hasInSwipe ==> r == Returned(()) && !signInCalled
      ensures s.widgetAppears && ViewSwipes(s.probe).probe.hasInSwipe && db != null ==>
        var t := ViewSwipes(s.probe).probe.swipeTime.GetOr("");
        db.docs == if t != "" then After(old(db.docs), today, now, Done, t) else old(db.docs)
      ensures s.widgetAppears && !ViewSwipes(s.probe).probe.hasInSwipe ==> signInCalled
      ensures signInCalled && !SignIn(s.signIn, old(WorkLocation(db))) ==> r == Threw(SignInFailed)
      ensures signInCalled && !SignIn(s.signIn, old(WorkLocation(db))) && db != null ==>
        db.docs == After(old(db.docs), today, now, Failed, SignInErrorPrefix + SignInFailed)
      ensures signInCalled && SignIn(s.signIn, old(WorkLocation(db))) ==> r == Returned(())
      ensures signInCalled && SignIn(s.signIn, old(WorkLocation(db))) && db != null ==>
        db.docs == After(old(db.docs), today, now, Done, RecordedSwipeTime(s))
      ensures db != null ==> db.docs == SwipeDocs(old(db.docs), today, now, s, old(WorkLocation(db)))
      ensures r.Returned? <==>
        s.widgetAppears && (ViewSwipes(s.probe).probe.hasInSwipe || SignIn(s.signIn, old(WorkLocation(db))))
    {
      signInCalled := false;
      if !s.widgetAppears {
        return Threw(NoWidget), false;
      }
      var swipeData := ViewSwipes(s.probe).probe;
      if swipeData.hasInSwipe {
        if swipeData.swipeTime.GetOr("") != "" {
          UpdateStatus(today, now, Done, swipeData.swipeTime.value);
        }
        return Returned(()), false;
      }
      signInCalled := true;
      var signInSuccess := SignIn(s.signIn, WorkLocation(db));
      if !signInSuccess {
        UpdateStatus(today, now, Failed, SignInErrorPrefix + SignInFailed);
        return Threw(SignInFailed), true;
      }
      var newSwipeTime := "";
      if s.viewSwipesAppears {
        var swipeDataAfter := ViewSwipes(s.reprobe).probe;
        newSwipeTime := swipeDataAfter.swipeTime.GetOr("");
      }
      if newSwipeTime != "" {
        UpdateStatus(today, now, Done, newSwipeTime);
      } else {
        UpdateStatus(today, now, Done, s.clock);
      }
      r := Returned(());
    }

    /** The steps of `run` after `init`, up to the first one that throws:
        they succeed exactly when the browser launched, some strategy logged
        in, the swipe-in succeeded and the browser closed; the store changes
        only through `swipeIn`, which runs once the login succeeded. */
    method Steps(today: string, now: string, s: Session) returns (r: Outcome<()>)
      modifies db
      ensures r == StepsOutcome(s, old(WorkLocation(db)))
      ensures r.Returned? <==>
          s.launchError.None? && LoggedIn(s) && s.closeError.None? && s.swipe.widgetAppears
          && (ViewSwipes(s.swipe.probe).probe.hasInSwipe || SignIn(s.swipe.signIn, old(WorkLocation(db))))
      ensures s.launchError.Some? ==> r == Threw(s.launchError.value)
      ensures s.launchError.None? && Strategy1(s.p1).Threw? && Strategy2(s.p2).Threw? && Strategy3(s.p3).Threw? ==>
        r == Strategy3(s.p3)
      ensures db != null ==>
          db.docs == if s.launchError.None? && LoggedIn(s) then SwipeDocs(old(db.docs), today, now, s.swipe, old(WorkLocation(db)))
                     else old(db.docs)
    {
      if s.launchError.Some? {
        return Threw(s.launchError.value);
      }
      var loggedIn, tried := Login.Login(s.p1, s.p2, s.p3);
      if loggedIn.Threw? {
        return loggedIn;
      }
      var swiped, signInCalled := SwipeIn(today, now, s.swipe);
      if swiped.Threw? {
        return swiped;
      }
      if s.closeError.Some? {
        return Threw(s.closeError.value);
      }
      r := Returned(());
    }

    /** `run` as written: whatever stops the run in server mode, including
        the early stop on a day already settled, is recorded as FAILED
        before it is rethrown. */
    method Run(today: string, now: string, s: Session) returns (end: Ending)
      modifies db
      ensures end == RunEnding(standalone, db != null && StopsEarly(old(db.docs), today),
                               CredentialsSet(empId, password), StepsOutcome(s, old(WorkLocation(db))))
      ensures end == Completed <==>
        !(db != null && StopsEarly(old(db.docs), today)) && ValidateCredentials() == Proceed
        && StepsOutcome(s, old(WorkLocation(db))).Returned?
      ensures db != null && StopsEarly(old(db.docs), today) ==>
        end == if standalone then Exited(0) else Raised(AlreadyCompleted)
      ensures end.Raised? ==> !standalone
      ensures end.Raised? && db != null && db.up && !IsBeforeInitialDate(today) ==>
        DailyLogPath(today) in db.docs && FailureRecorded(db.docs[DailyLogPath(today)], end.msg)
    {
      var step, stoppedEarly := Init(today, now);
      if step.Exit? {
        return Exited(step.code);
      }
      var result: Outcome<()>;
      if step.Throw? {
        result := Threw(step.msg);
      } else {
        result := Steps(today, now, s);
      }
      if result.Returned? {
        return Completed;
      }
      UpdateStatus(today, now, Failed, result.msg);
      if db != null && db.up && !IsBeforeInitialDate(today) {
        RecordsFailure(today, now, result.msg);
      }
      end := if standalone then Exited(1) else Raised(result.msg);
    }

    /** After a FAILED write on or after the cutover the day's record shows
        that failure. */
    lemma RecordsFailure(today: string, now: string, msg: string)
      requires db != null && db.up && !IsBeforeInitialDate(today)
      ensures forall docs :: FailureRecorded(After(docs, today, now, Failed, msg)[DailyLogPath(today)], msg)
    {
      forall docs ensures FailureRecorded(After(docs, today, now, Failed, msg)[DailyLogPath(today)], msg) {
        var f := StatusFields(today, Failed, msg, now, empId);
        assert f["status"] == Str(Failed);
        if msg != "" {
          assert "failureReason" in f;
        }
      }
    }

    /** What `run` as written does to a settled day in server mode (a run
        started before another one finished the day): the FAILED write of
        its `catch` replaces the stored status, so the day no longer counts
        as settled and shows "Task already completed for today" as its
        failure. */
    lemma SettledDayMarkedFailed(docs: map<DocPath, Record>, today: string, now: string)
      requires db != null && db.up && !IsBeforeInitialDate(today) && StopsEarly(docs, today)
      ensures var rec := After(docs, today, now, Failed, AlreadyCompleted)[DailyLogPath(today)];
        Settled(docs[DailyLogPath(today)]) && !Settled(rec) && FailureRecorded(rec, AlreadyCompleted)
    {
      var p := DailyLogPath(today);
      WriteDecidesSettled(Existing(docs, p), today, Failed, AlreadyCompleted, now, empId);
      RecordsFailure(today, now, AlreadyCompleted);
    }

    /** `run` with the early stop rethrown as it is: a day that is already
        settled is left exactly as stored, and every other failure is still
        recorded. */
    method RunFixed(today: string, now: string, s: Session) returns (end: Ending)
      modifies db
      ensures db != null && StopsEarly(old(db.docs), today) ==>
        end == (if standalone then Exited(0) else Raised(AlreadyCompleted))
        && db.docs == if IsBeforeInitialDate(today) then After(old(db.docs), today, now, Pending, "") else old(db.docs)
      ensures end.Raised? ==> !standalone
      ensures end.Raised? && end.msg != AlreadyCompleted && db != null && db.up && !IsBeforeInitialDate(today) ==>
        DailyLogPath(today) in db.docs && FailureRecorded(db.docs[DailyLogPath(today)], end.msg)
    {
      var step, stoppedEarly := Init(today, now);
      if step.Exit? {
        return Exited(step.code);
      }
      if stoppedEarly {
        return Raised(step.msg);
      }
      var result: Outcome<()>;
      if step.Throw? {
        result := Threw(step.msg);
      } else {
        result := Steps(today, now, s);
      }
      if result.Returned? {
        return Completed;
      }
      UpdateStatus(today, now, Failed, result.msg);
      if db != null && db.up && !IsBeforeInitialDate(today) {
        RecordsFailure(today, now, result.msg);
      }
      end := if standalone then Exited(1) else Raised(result.msg);
    }
  }
}
