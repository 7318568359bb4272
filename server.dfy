/** The decisions of src/server.js: the start-up environment check, the
    day's configuration as the server reads it, the default-config seeding,
    `dailyTask` (which drives the automation of module Automation), the
    token and `force` rules of the `/trigger` and `/seed` endpoints, the
    `/status` answer and the cron listener's rescheduling. Express, node-cron
    and the notifications are outside the model. */
module Server {
  import opened Wrappers
  import opened Strings
  import opened Search
  import opened IsoDate
  import opened Firestore
  import opened Automation

  // ---------------------------------------------------------------------
  // validateEnv

  const RequiredKeys: seq<string> := ["TRIGGER_TOKEN", "EMP_ID", "PASSWORD", "GREYTHR_URL"]

  /** `!process.env[key]`: the variable is absent or empty. */
  predicate Unset(env: map<string, string>, k: string) {
    !(k in env && env[k] != "")
  }

  /** `a` is `b` with some elements left out, in `b`'s order. */
  predicate IsSubsequence(a: seq<string>, b: seq<string>)
    decreases |b|
  {
    if |a| == 0 then true
    else if |b| == 0 then false
    else if a[0] == b[0] then IsSubsequence(a[1..], b[1..])
    else IsSubsequence(a, b[1..])
  }

  /** `keys.filter((key) => !process.env[key])`: exactly the unset keys, in
      the order of `keys`. */
  function MissingKeys(keys: seq<string>, env: map<string, string>): (r: seq<string>)
    ensures forall k :: k in r ==> k in keys && Unset(env, k)
    ensures forall k :: k in keys && Unset(env, k) ==> k in r
    ensures IsSubsequence(r, keys)
  {
    if |keys| == 0 then []
    else if Unset(env, keys[0]) then [keys[0]] + MissingKeys(keys[1..], env)
    else MissingKeys(keys[1..], env)
  }

  /** Whether `validateEnv` ends the process: some required variable is
      unset. */
  function ValidateEnv(env: map<string, string>): (exits: bool)
    ensures exits <==> exists k :: k in RequiredKeys && Unset(env, k)
  {
    var missing := MissingKeys(RequiredKeys, env);
    assert |missing| > 0 ==> missing[0] in missing;
    |missing| > 0
  }

  // ---------------------------------------------------------------------
  // fetchTodayConfig, /status, fetchScheduleCron

  /** The record `fetchTodayConfig` makes up before the cutover date. */
  function PendingConfig(today: string): Record {
    map["status" := Str(Pending), "message" := Str(BeforeInitialDayMessage), "date" := Str(today)]
  }

  /** `fetchTodayConfig` over the stored documents: before the cutover the
      made-up PENDING record, read from nowhere; otherwise the day's stored
      record, or `{}` when there is none; a failing read throws. */
  function FetchTodayConfig(docs: map<DocPath, Record>, up: bool, today: string): (r: Outcome<Record>)
    ensures IsBeforeInitialDate(today) ==> r == Returned(PendingConfig(today))
    ensures !IsBeforeInitialDate(today) && !up ==> r.Threw?
    ensures !IsBeforeInitialDate(today) && up ==>
      r.Returned? && (DailyLogPath(today) in docs ==> r.value == docs[DailyLogPath(today)])
      && (DailyLogPath(today) !in docs ==> r.value == map[])
  {
    if IsBeforeInitialDate(today) then Returned(PendingConfig(today))
    else if !up then Threw("Firestore unavailable")
    else if DailyLogPath(today) in docs then Returned(docs[DailyLogPath(today)])
    else Returned(map[])
  }

  /** The `/status` answer: the day's record (if any), whether the day is
      swiped in, and its status, "PENDING" when there is none. */
  datatype StatusReport = StatusReport(date: string, data: Option<Record>, alreadySwiped: bool, status: Value)

  function StatusView(docs: map<DocPath, Record>, up: bool, today: string): (r: Outcome<StatusReport>)
    ensures r.Returned? ==> Truthy(r.value.status) && r.value.date == today
    ensures r.Returned? && r.value.alreadySwiped ==> r.value.status == Str(Done)
    ensures IsBeforeInitialDate(today) ==> r.Returned? && r.value.status == Str(Pending) && !r.value.alreadySwiped
    ensures !IsBeforeInitialDate(today) ==> (r.Threw? <==> !up)
    ensures !IsBeforeInitialDate(today) && up ==>
      (r.value.alreadySwiped <==> DailyLogPath(today) in docs && FieldIs(docs[DailyLogPath(today)], "status", Done))
  {
    if IsBeforeInitialDate(today) then
      Returned(StatusReport(today, Some(map["status" := Str(Pending), "message" := Str(BeforeInitialDayMessage)]),
                            false, Str(Pending)))
    else if !up then Threw("Firestore unavailable")
    else if DailyLogPath(today) in docs then
      var data := docs[DailyLogPath(today)];
      Returned(StatusReport(today, Some(data), FieldIs(data, "status", Done), FieldOr(data, "status", Str(Pending))))
    else Returned(StatusReport(today, None, false, Str(Pending)))
  }

  /** A DONE write of the automation on or after the cutover is what
      `/status` then reports as swiped in. */
  lemma DoneWriteShowsSwiped(a: GreytHRAutomation, docs: map<DocPath, Record>, today: string, now: string, extra: string)
    requires a.db != null && a.db.up && !IsBeforeInitialDate(today)
    ensures var v := StatusView(a.After(docs, today, now, Done, extra), true, today);
      v.Returned? && v.value.alreadySwiped && v.value.status == Str(Done)
  {
    var p := DailyLogPath(today);
    var f := StatusFields(today, Done, extra, now, a.empId);
    assert a.After(docs, today, now, Done, extra)[p]["status"] == f["status"] == Str(Done);
  }

  const DefaultCron: string := "0 9 * * *"

  /** `fetchScheduleCron`: the stored cron expression when it is truthy, the
      09:00 default otherwise or when the read fails. */
  function FetchScheduleCron(docs: map<DocPath, Record>, up: bool): (r: Value)
    ensures Truthy(r)
    ensures (up && ConfigPath("schedule") in docs && "cron" in docs[ConfigPath("schedule")]
             && Truthy(docs[ConfigPath("schedule")]["cron"])) ==> r == docs[ConfigPath("schedule")]["cron"]
    ensures (!(up && ConfigPath("schedule") in docs && "cron" in docs[ConfigPath("schedule")]
               && Truthy(docs[ConfigPath("schedule")]["cron"]))) ==> r == Str(DefaultCron)
  {
    if up && ConfigPath("schedule") in docs then FieldOr(docs[ConfigPath("schedule")], "cron", Str(DefaultCron))
    else Str(DefaultCron)
  }

  // ---------------------------------------------------------------------
  // seedDefaultConfig

  function ScheduleDefault(now: string): Record {
    map["cron" := Str(DefaultCron), "description" := Str("Daily automation at 9:00 AM"), "enabled" := Bool(true),
        "createdAt" := Str(now), "updatedAt" := Str(now)]
  }

  function GeneralDefault(now: string): Record {
    map["headless" := Bool(true), "timeout" := Int(60000), "retryAttempts" := Int(3),
        "notifications" := Obj(map["enabled" := Bool(true), "onSuccess" := Bool(true), "onFailure" := Bool(true)]),
        "createdAt" := Str(now), "updatedAt" := Str(now)]
  }

  function LocationDefault(now: string): Record {
    map["latitude" := Number("28.5355"), "longitude" := Number("77.391"), "accuracy" := Int(100),
        "enabled" := Bool(true),
        "description" := Str("Default location: Delhi, India (28.5355\U{00B0} N, 77.3910\U{00B0} E)"),
        "createdAt" := Str(now), "updatedAt" := Str(now)]
  }

  function WorkLocationDefault(now: string): Record {
    map["workLocation" := Str(DefaultWorkLocation), "remarks" := Str(""),
        "description" := Str("Work location for sign-in (Office or Work From Home)"),
        "createdAt" := Str(now), "updatedAt" := Str(now)]
  }

  /** One seeding step: write the default only where the document is absent. */
  function SeedOne(docs: map<DocPath, Record>, id: string, rec: Record): (r: map<DocPath, Record>)
    ensures r.Keys == docs.Keys + {ConfigPath(id)}
    ensures forall p :: p in docs ==> r[p] == docs[p]
    ensures ConfigPath(id) !in docs ==> r[ConfigPath(id)] == rec
  {
    if ConfigPath(id) in docs then docs else docs[ConfigPath(id) := rec]
  }

  /** The documents after a seeding run on a reachable store. */
  function Seeded(docs: map<DocPath, Record>, now: string): map<DocPath, Record> {
    var d1 := SeedOne(docs, "schedule", ScheduleDefault(now));
    var d2 := SeedOne(d1, "general", GeneralDefault(now));
    var d3 := SeedOne(d2, "location", LocationDefault(now));
    SeedOne(d3, "work_location", WorkLocationDefault(now))
  }

  /** Seeding never changes a stored document, and afterwards all four
      configuration documents exist. */
  lemma SeedKeepsExisting(docs: map<DocPath, Record>, now: string)
    ensures forall p :: p in docs ==> p in Seeded(docs, now) && Seeded(docs, now)[p] == docs[p]
    ensures Seeded(docs, now).Keys ==
      docs.Keys + {ConfigPath("schedule"), ConfigPath("general"), ConfigPath("location"), ConfigPath("work_location")}
  {
  }

  /** A second seeding run, at any time, changes nothing. */
  lemma {:induction false} SeedIdempotent(docs: map<DocPath, Record>, now1: string, now2: string)
    ensures Seeded(Seeded(docs, now1), now2) == Seeded(docs, now1)
  {
    var s := Seeded(docs, now1);
    SeedKeepsExisting(docs, now1);
    assert ConfigPath("schedule") in s && ConfigPath("general") in s;
    assert ConfigPath("location") in s && ConfigPath("work_location") in s;
    assert SeedOne(s, "schedule", ScheduleDefault(now2)) == s;
    assert SeedOne(s, "general", GeneralDefault(now2)) == s;
    assert SeedOne(s, "location", LocationDefault(now2)) == s;
  }

  /** On a store that had no schedule, the cron expression read after
      seeding is the 09:00 default. */
  lemma SeededScheduleIsDefault(docs: map<DocPath, Record>, now: string)
    requires ConfigPath("schedule") !in docs
    ensures FetchScheduleCron(Seeded(docs, now), true) == Str(DefaultCron)
  {
    var p := ConfigPath("schedule");
    var d1 := SeedOne(docs, "schedule", ScheduleDefault(now));
    var d2 := SeedOne(d1, "general", GeneralDefault(now));
    var d3 := SeedOne(d2, "location", LocationDefault(now));
    var d4 := SeedOne(d3, "work_location", WorkLocationDefault(now));
    assert d4 == Seeded(docs, now);
    assert d4[p] == d3[p] == d2[p] == d1[p] == ScheduleDefault(now);
    assert ScheduleDefault(now)["cron"] == Str(DefaultCron);
  }

  /** Reads `config/<id>` and writes the default when it is missing;
      `ok` is false where the read throws. */
  method SeedDoc(store: Store, id: string, rec: Record) returns (ok: bool)
    modifies store
    ensures ok == store.up
    ensures store.docs == if store.up then SeedOne(old(store.docs), id, rec) else old(store.docs)
  {
    var existing := store.Read(ConfigPath(id));
    if existing.Unavailable? {
      return false;
    }
    if existing.Missing? {
      var written := store.Set(ConfigPath(id), rec);
    }
    ok := true;
  }

  /** `seedDefaultConfig`: the four documents in order, each only when
      absent; the first error ends the seeding and is swallowed. */
  method SeedDefaultConfig(store: Store, now: string)
    modifies store
    ensures store.docs == if store.up then Seeded(old(store.docs), now) else old(store.docs)
  {
    var ok := SeedDoc(store, "schedule", ScheduleDefault(now));
    if !ok { return; }
    ok := SeedDoc(store, "general", GeneralDefault(now));
    if !ok { return; }
    ok := SeedDoc(store, "location", LocationDefault(now));
    if !ok { return; }
    ok := SeedDoc(store, "work_location", WorkLocationDefault(now));
  }

  // ---------------------------------------------------------------------
  // Request fields, token and force

  /** A request field: a query or header string, or a JSON body value. */
  datatype Field = Absent | Text(s: string) | Flag(b: bool) | OtherJson(truthy: bool)

  /** JavaScript truthiness of a field. */
  predicate Given(f: Field) {
    match f
    case Absent => false
    case Text(s) => s != ""
    case Flag(b) => b
    case OtherJson(t) => t
  }

  datatype Request = Request(query: map<string, string>, headers: map<string, string>, body: map<string, Field>)

  function Param(m: map<string, string>, k: string): Field {
    if k in m then Text(m[k]) else Absent
  }

  function BodyField(req: Request, k: string): Field {
    if k in req.body then req.body[k] else Absent
  }

  /** `a || b || ... || fallback`. */
  function ResolveToken(candidates: seq<Field>, fallback: Field): (t: Field)
    ensures FirstIndex(candidates, Given).Some? ==> t == candidates[FirstIndex(candidates, Given).value]
    ensures FirstIndex(candidates, Given).None? ==> t == fallback
  {
    if |candidates| == 0 then fallback
    else if Given(candidates[0]) then candidates[0]
    else ResolveToken(candidates[1..], fallback)
  }

  /** The token check: the first supplied token, else the server's own
      `TRIGGER_TOKEN`, must be truthy and equal to `TRIGGER_TOKEN`. */
  predicate Authorized(candidates: seq<Field>, envToken: Field) {
    var token := ResolveToken(candidates, envToken);
    Given(token) && token == envToken
  }

  /** A request that supplies no token is accepted whenever the server has
      one; a supplied token is accepted exactly when it is the server's. */
  lemma TokenRule(candidates: seq<Field>, envToken: Field)
    ensures FirstIndex(candidates, Given).None? ==> (Authorized(candidates, envToken) <==> Given(envToken))
    ensures FirstIndex(candidates, Given).Some? ==>
      (Authorized(candidates, envToken) <==> candidates[FirstIndex(candidates, Given).value] == envToken)
  {
  }

  /** The token sources of `GET /trigger`, `POST /trigger` and `POST /seed`,
      in the order the handlers try them. */
  function GetTriggerTokens(req: Request): seq<Field> {
    [Param(req.query, "token"), Param(req.headers, "x-trigger-token")]
  }

  function PostTriggerTokens(req: Request): seq<Field> {
    [BodyField(req, "token"), Param(req.headers, "x-trigger-token")]
  }

  function SeedTokens(req: Request): seq<Field> {
    [BodyField(req, "token"), Param(req.headers, "x-trigger-token"), Param(req.query, "token")]
  }

  /** `force` for `GET /trigger`. */
  predicate ForceGet(req: Request) {
    Param(req.query, "force") == Text("true") || Param(req.query, "force") == Text("1")
    || Param(req.headers, "x-force") == Text("true")
  }

  /** `force` for `POST /trigger`. */
  predicate ForcePost(req: Request) {
    BodyField(req, "force") == Flag(true) || BodyField(req, "force") == Text("true")
    || Param(req.headers, "x-force") == Text("true")
  }

  /** The spellings of `force` differ by method: "1" forces a GET but not a
      POST, a JSON `true` forces a POST, and the header is read the same by
      both; nothing else forces either. */
  lemma ForceSpellings(req: Request)
    ensures ForceGet(req) <==>
      ("force" in req.query && req.query["force"] in {"true", "1"})
      || ("x-force" in req.headers && req.headers["x-force"] == "true")
    ensures ForcePost(req) <==>
      ("force" in req.body && req.body["force"] in {Flag(true), Text("true")})
      || ("x-force" in req.headers && req.headers["x-force"] == "true")
    ensures Request(map["force" := "1"], map[], map[]).query["force"] == "1"
      && ForceGet(Request(map["force" := "1"], map[], map[]))
      && !ForcePost(Request(map[], map[], map["force" := Text("1")]))
  {
  }

  // ---------------------------------------------------------------------
  // dailyTask

  /** What `dailyTask` returns; a result without `forced` is given as
      `false`, which is how every handler reads it (`result.forced || false`). */
  datatype TaskResult = TaskResult(success: bool, message: string, alreadyDone: bool, status: Value, forced: bool)

  const SkippedMessage: string := "Skipped as per config"
  const AlreadyDoneMessage: string := "Swipe was already completed today. No action needed."
  const ForcedMessage: string := "Automation forced to run (bypassed DONE status)."
  const CompletedMessage: string := "Swipe-in completed successfully."
  const FailurePrefix: string := "Automation failed: "

  function Failure(msg: string): TaskResult {
    TaskResult(false, FailurePrefix + msg, false, Str("ERROR"), false)
  }

  /** The environment value `process.env[k]`, "" when unset. */
  function EnvOr(env: map<string, string>, k: string): string {
    if k in env then env[k] else ""
  }

  /** `process.env[k]`, `None` standing for `undefined`. */
  function EnvVar(env: map<string, string>, k: string): Option<string> {
    if k in env then Some(env[k]) else None
  }

  /** `dailyTask(force)`: without `force`, a SKIP or DONE day returns at
      once; otherwise the automation's `run` (as written, and as a module, so
      it throws rather than exiting) is started and the status is read
      again. Every error becomes an ERROR result, and a failed run on or
      after the cutover has recorded its error as the day's failure, even
      the early stop on a PENDING "before initial day" record. `ran` tells
      whether the automation was started. */
  method DailyTask(store: Store, env: map<string, string>, force: bool, today: string, now: string, s: Session)
    returns (r: TaskResult, ran: bool)
    modifies store
    ensures var cfg := FetchTodayConfig(old(store.docs), store.up, today);
      ran <==> cfg.Returned? && (force || !(FieldIs(cfg.value, "status", Skip) || FieldIs(cfg.value, "status", Done)))
    ensures !ran ==> store.docs == old(store.docs)
    ensures var cfg := FetchTodayConfig(old(store.docs), store.up, today);
      cfg.Threw? ==> r == Failure(cfg.msg)
    ensures var cfg := FetchTodayConfig(old(store.docs), store.up, today);
      cfg.Returned? && !force && FieldIs(cfg.value, "status", Skip) ==>
        r == TaskResult(true, SkippedMessage, false, Str(Skip), false)
    ensures var cfg := FetchTodayConfig(old(store.docs), store.up, today);
      cfg.Returned? && !force && !FieldIs(cfg.value, "status", Skip) && FieldIs(cfg.value, "status", Done) ==>
        r == TaskResult(true, AlreadyDoneMessage, true, Str(Done), false)
    ensures var cfg := FetchTodayConfig(old(store.docs), store.up, today);
      ran && r.success ==>
        r.forced == force && !r.alreadyDone && Truthy(r.status)
        && (r.message == ForcedMessage <==> force && FieldIs(cfg.value, "status", Done))
        && (r.message != ForcedMessage ==> r.message == CompletedMessage)
    ensures !r.success ==> r.status == Str("ERROR") && !r.alreadyDone && !r.forced
    ensures IsBeforeInitialDate(today) && !force ==> ran && r == Failure(AlreadyCompleted)
    ensures var p := DailyLogPath(today);
      var stops := !force && (IsBeforeInitialDate(today) || (store.up && p in old(store.docs) && Settled(old(store.docs)[p])));
      var end := RunEnding(false, stops, CredentialsSet(EnvVar(env, "EMP_ID"), EnvOr(env, "PASSWORD")),
                           StepsOutcome(s, old(WorkLocation(store))));
      ran ==> (r.success <==> end == Completed) && (!r.success ==> r == Failure(end.msg))
    ensures ran && !r.success && store.up && !IsBeforeInitialDate(today) ==>
      DailyLogPath(today) in store.docs
      && exists m :: r.message == FailurePrefix + m && FailureRecorded(store.docs[DailyLogPath(today)], m)
    ensures var p := DailyLogPath(today);
      !force && store.up && !IsBeforeInitialDate(today) && p in old(store.docs) && Settled(old(store.docs)[p])
      && !FieldIs(old(store.docs)[p], "status", Skip) && !FieldIs(old(store.docs)[p], "status", Done) ==>
        ran && r == Failure(AlreadyCompleted) && p in store.docs
        && FieldIs(store.docs[p], "status", Failed) && FieldIs(store.docs[p], "failureReason", AlreadyCompleted)
  {
    var config := FetchTodayConfig(store.docs, store.up, today);
    if config.Threw? {
      return Failure(config.msg), false;
    }
    if !force && FieldIs(config.value, "status", Skip) {
      return TaskResult(true, SkippedMessage, false, Str(Skip), false), false;
    }
    var alreadyDone := FieldIs(config.value, "status", Done);
    if alreadyDone && !force {
      return TaskResult(true, AlreadyDoneMessage, true, FieldOr(config.value, "status", Str(Done)), false), false;
    }
    ran := true;
    var automation := new GreytHRAutomation(EnvVar(env, "EMP_ID"), EnvOr(env, "PASSWORD"), force, false, store);
    var end := automation.Run(today, now, s);
    if end.Raised? {
      return Failure(end.msg), true;
    }
    var afterConfig := FetchTodayConfig(store.docs, store.up, today);
    assert afterConfig.Returned?;
    var finalStatus := FieldOr(afterConfig.value, "status", Str("UNKNOWN"));
    var message := if force && alreadyDone then ForcedMessage else CompletedMessage;
    r := TaskResult(true, message, false, finalStatus, force);
  }

  /** What a `/trigger` request gets: 403, or the answer of `dailyTask`. */
  datatype TriggerResponse = Forbidden | Answered(result: TaskResult)

  /** `GET /trigger` and `POST /trigger`: the token check, then `dailyTask`
      with the method's reading of `force`. A refused request changes
      nothing. */
  method Trigger(isGet: bool, req: Request, env: map<string, string>, store: Store, today: string, now: string, s: Session)
    returns (resp: TriggerResponse)
    modifies store
    ensures var tokens := if isGet then GetTriggerTokens(req) else PostTriggerTokens(req);
      resp == Forbidden <==> !Authorized(tokens, Param(env, "TRIGGER_TOKEN"))
    ensures resp == Forbidden ==> store.docs == old(store.docs)
    ensures resp.Answered? && resp.result.success && !resp.result.alreadyDone && resp.result.message != SkippedMessage ==>
      resp.result.forced == if isGet then ForceGet(req) else ForcePost(req)
  {
    var tokens := if isGet then GetTriggerTokens(req) else PostTriggerTokens(req);
    if !Authorized(tokens, Param(env, "TRIGGER_TOKEN")) {
      return Forbidden;
    }
    var force := if isGet then ForceGet(req) else ForcePost(req);
    var result, ran := DailyTask(store, env, force, today, now, s);
    resp := Answered(result);
  }

  // ---------------------------------------------------------------------
  // setupCronListener

  /** The module-level `currentCronTask` / `currentCronExpression` pair and
      the tasks node-cron was asked to schedule, by index; a stopped task
      never fires again. */
  class CronListener {
    var scheduled: seq<Value>
    var stopped: set<nat>
    var currentTask: Option<nat>
    var currentExpression: Option<Value>

    /** The current task is the last one scheduled and carries the current
        expression; every earlier task has been stopped, and only scheduled
        tasks are ever stopped. */
    predicate Valid()
      reads this
    {
      (currentTask.None? <==> |scheduled| == 0)
      && (currentTask.None? ==> currentExpression.None?)
      && (currentTask.Some? ==>
            currentTask.value == |scheduled| - 1 && currentTask.value !in stopped
            && currentExpression == Some(scheduled[|scheduled| - 1]))
      && (forall i :: 0 <= i < |scheduled| - 1 ==> i in stopped)
      && (forall i :: i in stopped ==> i < |scheduled|)
    }

    /** A task that may still fire. */
    predicate Running(i: nat)
      reads this
    {
      i < |scheduled| && i !in stopped
    }

    constructor ()
      ensures Valid() && scheduled == [] && currentTask == None && currentExpression == None
    {
      scheduled := [];
      stopped := {};
      currentTask := None;
      currentExpression := None;
    }

    /** At most one scheduled task is running: the current one. */
    lemma OneTaskRunning()
      requires Valid()
      ensures forall i: nat :: Running(i) ==> currentTask == Some(i)
      ensures currentTask.Some? ==> Running(currentTask.value)
    {

    }

    /** The snapshot callback: nothing for a missing document or an
        unchanged expression; otherwise the previous task is stopped and the
        new expression (`data.cron`, or the 09:00 default) scheduled and
        recorded. */
    method OnSnapshot(doc: Option<Record>)
      requires Valid()
      modifies this
      ensures Valid()
      ensures doc.None? || currentExpression == old(currentExpression) ==> unchanged(this)
      ensures doc.Some? ==> currentExpression == Some(FieldOr(doc.value, "cron", Str(DefaultCron)))
      ensures doc.Some? && old(currentExpression) != Some(FieldOr(doc.value, "cron", Str(DefaultCron))) ==>
        scheduled == old(scheduled) + [FieldOr(doc.value, "cron", Str(DefaultCron))]
        && stopped == old(stopped) + (if old(currentTask).Some? then {old(currentTask).value} else {})
    {
      if doc.None? {
        return;
      }
      var newCronExpr := FieldOr(doc.value, "cron", Str(DefaultCron));
      if currentExpression != Some(newCronExpr) {
        if currentTask.Some? {
          stopped := stopped + {currentTask.value};
        }
        scheduled := scheduled + [newCronExpr];
        currentTask := Some(|scheduled| - 1);
        currentExpression := Some(newCronExpr);
      }
    }
  }
}
