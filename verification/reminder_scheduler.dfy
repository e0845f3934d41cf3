/** `ReminderScheduler`: which stored reminders fire at a given minute, the
    message each one gets, the four default broadcasts and their cron
    expressions, and the job map of custom reminders.

    Cron itself is not modelled: a scheduled job is a record that is either
    live or stopped, the expression validator of `cron.schedule` is the
    parameter `accepts`, and the current local time is passed in. A send is
    recorded as the `sendMessage` call it makes; `sendMessage` reports a
    failed delivery by returning false and `sendReminderMessage` catches
    anything else, so no outcome ever stops a loop over recipients and the
    list of calls does not depend on the outcomes. */
module ReminderScheduler {
  import opened Wrappers
  import opened Text
  import Clock
  import opened DatabaseService

  /** One `whatsappClient.sendMessage(phone, text)` call. */
  datatype Send = Send(phone: string, text: string)

  // ---------------------------------------------------------------------------
  // Cron expressions

  /** "HH:MM" with two-digit hour and minute. */
  predicate WellFormedTime(t: string) {
    |t| == 5 && IsDigit(t[0]) && IsDigit(t[1]) && t[2] == ':' && IsDigit(t[3]) && IsDigit(t[4])
  }

  /** `const [hour, minute] = time.split(':')` followed by
      `${minute} ${hour} * * *`; a time without a colon leaves `minute`
      undefined, which the template prints as "undefined". */
  function CronExpression(time: string): (r: string)
    ensures WellFormedTime(time) ==> r == time[3..5] + " " + time[..2] + " * * *"
  {
    var parts := Split(time, ':');
    var minute := if |parts| >= 2 then parts[1] else "undefined";
    var expression := minute + " " + parts[0] + " * * *";
    if WellFormedTime(time) then SplitClock(time); expression else expression
  }

  /** A well-formed time splits into its hour and its minute. */
  lemma SplitClock(time: string)
    requires WellFormedTime(time)
    ensures Split(time, ':') == [time[..2], time[3..5]]
  {
    assert ':' !in time[..2];
    assert IndexOfChar(time, ':') == Some(2);
    var rest := time[3..];
    assert ':' !in rest;
    assert IndexOfChar(rest, ':').None?;
    assert Split(rest, ':') == [rest];
    assert rest == time[3..5];
  }

  /** Distinct well-formed times get distinct expressions, so the time can
      be read back from the expression. */
  lemma CronExpressionInjective(t: string, u: string)
    requires WellFormedTime(t) && WellFormedTime(u)
    requires CronExpression(t) == CronExpression(u)
    ensures t == u
  {
    var c := CronExpression(t);
    assert c[..2] == t[3..5] && c[..2] == u[3..5];
    assert c[3..5] == t[..2] && c[3..5] == u[..2];
    assert t == t[..2] + [':'] + t[3..5];
    assert u == u[..2] + [':'] + u[3..5];
  }

  // ---------------------------------------------------------------------------
  // Default reminders

  datatype DefaultReminder = DefaultReminder(time: string, mealType: string, message: string)

  const BreakfastBroadcast: string := "Bom dia! \U{2600}\U{FE0F} Já tomou café da manhã? Me envie uma foto do que comeu!"
  const LunchBroadcast: string := "Hora do almoço! \U{1F37D}\U{FE0F} Não se esqueça de registrar sua refeição!"
  const SnackBroadcast: string := "Que tal um lanchinho saudável? \U{1F957} Me conte o que comeu!"
  const DinnerBroadcast: string := "Hora do jantar! \U{1F319} Vamos registrar sua última refeição do dia?"

  /** `setupDefaultReminders`' table. */
  const DefaultReminders: seq<DefaultReminder> := [
    DefaultReminder("08:00", "breakfast", BreakfastBroadcast),
    DefaultReminder("12:00", "lunch", LunchBroadcast),
    DefaultReminder("16:00", "snack", SnackBroadcast),
    DefaultReminder("19:00", "dinner", DinnerBroadcast)
  ]

  /** `setupDefaultReminders`: the expression each default is scheduled
      with fires daily at minute 0 of the hour its time names. */
  lemma DefaultSchedule(k: nat)
    requires k < |DefaultReminders|
    ensures CronExpression(DefaultReminders[k].time) == "00 " + DefaultReminders[k].time[..2] + " * * *"
  {
    DefaultTimeOnTheHour(k);
    var t := DefaultReminders[k].time;
    assert CronExpression(t) == t[3..5] + " " + t[..2] + " * * *";
  }

  lemma DefaultTimeOnTheHour(k: nat)
    requires k < |DefaultReminders|
    ensures WellFormedTime(DefaultReminders[k].time) && DefaultReminders[k].time[3..5] == "00"
  {
  }

  /** `sendDefaultReminder(message)`: one send per active reminder row whose
      phone is truthy, in row order. */
  function DefaultSends(rows: seq<ActiveReminder>, message: string): (r: seq<Send>)
    ensures |r| <= |rows|
    ensures forall k | 0 <= k < |r| :: r[k].text == message && r[k].phone != ""
  {
    if |rows| == 0 then []
    else DefaultSends(rows[..|rows| - 1], message)
         + (if rows[|rows| - 1].phone != "" then [Send(rows[|rows| - 1].phone, message)] else [])
  }

  function SendsTo(sends: seq<Send>, phone: string): nat {
    if |sends| == 0 then 0
    else SendsTo(sends[..|sends| - 1], phone) + (if sends[|sends| - 1].phone == phone then 1 else 0)
  }

  function RowsFor(rows: seq<ActiveReminder>, phone: string): nat {
    if |rows| == 0 then 0
    else RowsFor(rows[..|rows| - 1], phone) + (if rows[|rows| - 1].phone == phone then 1 else 0)
  }

  lemma {:induction false} SendsToAppend(a: seq<Send>, b: seq<Send>, phone: string)
    ensures SendsTo(a + b, phone) == SendsTo(a, phone) + SendsTo(b, phone)
    decreases |b|
  {
    if |b| == 0 {
      assert a + b == a;
    } else {
      assert (a + b)[..|a + b| - 1] == a + b[..|b| - 1];
      assert (a + b)[|a + b| - 1] == b[|b| - 1];
      SendsToAppend(a, b[..|b| - 1], phone);
    }
  }

  /** A phone receives a default broadcast once per enabled reminder row it
      has: a user with several enabled meal types gets it several times. */
  lemma {:induction false} DefaultSendsPerPhone(rows: seq<ActiveReminder>, message: string, phone: string)
    requires phone != ""
    ensures SendsTo(DefaultSends(rows, message), phone) == RowsFor(rows, phone)
  {
    if |rows| > 0 {
      var last := rows[|rows| - 1];
      DefaultSendsPerPhone(rows[..|rows| - 1], message, phone);
      SendsToAppend(DefaultSends(rows[..|rows| - 1], message),
                    if last.phone != "" then [Send(last.phone, message)] else [], phone);
    }
  }

  // ---------------------------------------------------------------------------
  // checkAndSendReminders

  const BreakfastReminder: string := "Bom dia! \U{2600}\U{FE0F} Hora do café da manhã! Me envie uma foto do que vai comer."
  const LunchReminder: string := "Hora do almoço! \U{1F37D}\U{FE0F} Não se esqueça de registrar sua refeição!"
  const DinnerReminder: string := "Boa noite! \U{1F319} Hora do jantar! Vamos registrar o que você comeu?"
  const SnackReminder: string := "Hora do lanche! \U{1F964} Me conte o que vai comer!"
  const GenericReminder: string := "Olá! Lembrete para registrar sua refeição! \U{1F60A}"

  /** `mealTypeMessages[meal_type] || generic` of `sendReminderMessage`. */
  function ReminderMessage(mealType: string): (r: string)
    ensures mealType !in {"breakfast", "lunch", "dinner", "snack"} <==> r == GenericReminder
    ensures mealType == "breakfast" <==> r == BreakfastReminder
    ensures mealType == "lunch" <==> r == LunchReminder
    ensures mealType == "dinner" <==> r == DinnerReminder
    ensures mealType == "snack" <==> r == SnackReminder
  {
    if mealType == "breakfast" then BreakfastReminder
    else if mealType == "lunch" then LunchReminder
    else if mealType == "dinner" then DinnerReminder
    else if mealType == "snack" then SnackReminder
    else GenericReminder
  }

  /** The message `sendReminderMessage` sends for one row. */
  function SendFor(row: ActiveReminder): Send {
    Send(row.phone, ReminderMessage(row.mealType))
  }

  /** The row is due at the current "HH:MM": the first five characters of
      its time are exactly the current time. */
  predicate Due(row: ActiveReminder, current: string) {
    Clock.HourMinute(row.time) == current
  }

  /** The positions of the rows due at `current`, in row order. */
  function DueIndices(rows: seq<ActiveReminder>, current: string): (r: seq<nat>)
    ensures forall k | 0 <= k < |r| :: r[k] < |rows| && Due(rows[r[k]], current)
    ensures forall k, l | 0 <= k < l < |r| :: r[k] < r[l]
    ensures forall i | 0 <= i < |rows| && Due(rows[i], current) :: i in r
  {
    if |rows| == 0 then []
    else
      var init := rows[..|rows| - 1];
      assert forall i | 0 <= i < |init| :: init[i] == rows[i];
      DueIndices(init, current) + (if Due(rows[|rows| - 1], current) then [|rows| - 1] else [])
  }

  /** The sends for the rows due at `current`: one per due row, in row order. */
  function DueSends(rows: seq<ActiveReminder>, current: string): (r: seq<Send>)
    ensures |r| <= |rows|
    ensures forall x :: x in r <==>
      exists k | 0 <= k < |rows| :: Due(rows[k], current) && x == SendFor(rows[k])
  {
    if |rows| == 0 then []
    else
      var init := rows[..|rows| - 1];
      var last := rows[|rows| - 1];
      var r := DueSends(init, current) + (if Due(last, current) then [SendFor(last)] else []);
      assert forall k | 0 <= k < |init| :: init[k] == rows[k];
      r
  }

  /** One send per due row, in row order: the k-th send goes to the k-th due
      row, so a phone with several due rows gets several sends. */
  lemma {:induction false} DueSendsPerRow(rows: seq<ActiveReminder>, current: string)
    ensures var idx := DueIndices(rows, current);
      && |DueSends(rows, current)| == |idx|
      && forall k | 0 <= k < |idx| ::
           DueSends(rows, current)[k] == SendFor(rows[idx[k]])
  {
    if |rows| > 0 {
      var init := rows[..|rows| - 1];
      var last := rows[|rows| - 1];
      DueSendsPerRow(init, current);
      var idx0 := DueIndices(init, current);
      var sends0 := DueSends(init, current);
      assert forall k | 0 <= k < |idx0| :: idx0[k] < |init|;
      if Due(last, current) {
        PerRowExtend(rows, idx0, sends0, [|rows| - 1], [SendFor(last)]);
      } else {
        PerRowExtend(rows, idx0, sends0, [], []);
      }
    }
  }

  /** Appending matching index and send lists keeps the k-th send the send
      of the k-th indexed row. */
  lemma PerRowExtend(rows: seq<ActiveReminder>, idx0: seq<nat>, sends0: seq<Send>, idx1: seq<nat>, sends1: seq<Send>)
    requires |rows| > 0 && forall k | 0 <= k < |idx0| :: idx0[k] < |rows| - 1
    requires |sends0| == |idx0| && forall k | 0 <= k < |idx0| :: sends0[k] == SendFor(rows[..|rows| - 1][idx0[k]])
    requires |sends1| == |idx1| && forall k | 0 <= k < |idx1| :: idx1[k] < |rows| && sends1[k] == SendFor(rows[idx1[k]])
    ensures forall k | 0 <= k < |idx0 + idx1| :: (sends0 + sends1)[k] == SendFor(rows[(idx0 + idx1)[k]])
  {
  }

  /** `checkAndSendReminders()`: reads the active reminders and sends each one
      that is due at the current local "HH:MM". */
  method CheckAndSendReminders(db: Db, now: Clock.Now) returns (sends: seq<Send>)
    ensures sends == DueSends(GetAllActiveReminders(db), Clock.HourMinute(now.localTime))
  {
    var current := Clock.HourMinute(now.localTime);
    var rows := GetAllActiveReminders(db);
    sends := [];
    var i := 0;
    while i < |rows|
      invariant 0 <= i <= |rows|
      invariant sends == DueSends(rows[..i], current)
    {
      assert rows[..i + 1][..i] == rows[..i];
      if Clock.HourMinute(rows[i].time) == current {
        sends := sends + [SendFor(rows[i])];
      }
      i := i + 1;
    }
    assert rows[..|rows|] == rows;
  }

  /** The check runs every fifteen minutes from the hour, so it only ever
      sees minutes 00, 15, 30 and 45. */
  predicate TickTime(current: string) {
    |current| == 5 && current[3..5] in {"00", "15", "30", "45"}
  }

  /** A reminder stored for any other minute is never due when the check
      runs, so no check ever sends it. */
  lemma OffTickNeverDue(row: ActiveReminder, current: string)
    requires TickTime(current)
    requires |row.time| >= 5 && row.time[3..5] !in {"00", "15", "30", "45"}
    ensures !Due(row, current)
  {
    assert Clock.HourMinute(row.time)[3..5] == row.time[3..5];
  }

  // ---------------------------------------------------------------------------
  // scheduleCustomReminder

  const BreakfastCustom: string := "Bom dia! \U{2600}\U{FE0F} Hora do café da manhã!"
  const LunchCustom: string := "Hora do almoço! \U{1F37D}\U{FE0F}"
  const DinnerCustom: string := "Boa noite! \U{1F319} Hora do jantar!"
  const SnackCustom: string := "Hora do lanche! \U{1F964}"
  const GenericCustom: string := "Lembrete de refeição!"

  /** The message a custom job sends: its own table, its own fallback. */
  function CustomMessage(mealType: string): (r: string)
    ensures mealType !in {"breakfast", "lunch", "dinner", "snack"} <==> r == GenericCustom
    ensures mealType == "breakfast" <==> r == BreakfastCustom
    ensures mealType == "lunch" <==> r == LunchCustom
    ensures mealType == "dinner" <==> r == DinnerCustom
    ensures mealType == "snack" <==> r == SnackCustom
  {
    if mealType == "breakfast" then BreakfastCustom
    else if mealType == "lunch" then LunchCustom
    else if mealType == "dinner" then DinnerCustom
    else if mealType == "snack" then SnackCustom
    else GenericCustom
  }

  /** A job created by `cron.schedule`; `stop()` sets `stopped`. */
  datatype Task = Task(key: string, cron: string, phone: string, message: string, stopped: bool)

  /** Every job ever created, and `scheduledJobs`: key to job. */
  datatype Scheduler = Scheduler(tasks: seq<Task>, jobs: map<string, nat>)

  const NoJobs: Scheduler := Scheduler([], map[])

  /** Every key names a job of that key, and every live job is the one its
      key names. */
  predicate JobsValid(sch: Scheduler) {
    && (forall key | key in sch.jobs :: sch.jobs[key] < |sch.tasks| && sch.tasks[sch.jobs[key]].key == key)
    && (forall i | 0 <= i < |sch.tasks| && !sch.tasks[i].stopped ::
          sch.tasks[i].key in sch.jobs && sch.jobs[sch.tasks[i].key] == i)
  }

  /** Hence at most one live job per key. */
  lemma OneLiveJobPerKey(sch: Scheduler, i: nat, j: nat)
    requires JobsValid(sch)
    requires i < |sch.tasks| && j < |sch.tasks| && !sch.tasks[i].stopped && !sch.tasks[j].stopped
    requires sch.tasks[i].key == sch.tasks[j].key
    ensures i == j
  {
  }

  function JobKey(phone: string, mealType: string): string {
    phone + "-" + mealType
  }

  /** `stop()` on the job the key names, if any. */
  function StopJob(sch: Scheduler, key: string): (r: Scheduler)
    ensures r.jobs == sch.jobs && |r.tasks| == |sch.tasks|
    ensures forall i | 0 <= i < |sch.tasks| ::
      r.tasks[i] == if key in sch.jobs && i == sch.jobs[key] then sch.tasks[i].(stopped := true) else sch.tasks[i]
  {
    if key in sch.jobs && sch.jobs[key] < |sch.tasks| then
      var i := sch.jobs[key];
      sch.(tasks := sch.tasks[i := sch.tasks[i].(stopped := true)])
    else sch
  }

  /** `scheduleCustomReminder(userId, phone, mealType, time)`. The setting is
      stored first, so it stays stored even when the expression is refused;
      the old job of the key is stopped before the new one is created; the
      result is true exactly when the new job was created. */
  function ScheduleCustomReminder(sch: Scheduler, db: Db, userId: UserId, phone: string, mealType: string,
                                  time: string, accepts: string -> bool): (r: (Scheduler, Db, bool))
    ensures r.1 == SetReminderSettings(db, userId, mealType, time)
    ensures r.2 <==> accepts(CronExpression(time))
    ensures r.2 ==> var key := JobKey(phone, mealType);
      && key in r.0.jobs && r.0.jobs[key] < |r.0.tasks|
      && r.0.tasks[r.0.jobs[key]] == Task(key, CronExpression(time), phone, CustomMessage(mealType), false)
    ensures |r.0.tasks| >= |sch.tasks|
    ensures forall key | key in sch.jobs && key != JobKey(phone, mealType) ::
      key in r.0.jobs && r.0.jobs[key] == sch.jobs[key]
  {
    var db1 := SetReminderSettings(db, userId, mealType, time);
    var key := JobKey(phone, mealType);
    var sch1 := StopJob(sch, key);
    var cron := CronExpression(time);
    if !accepts(cron) then (sch1, db1, false)
    else
      var task := Task(key, cron, phone, CustomMessage(mealType), false);
      (Scheduler(sch1.tasks + [task], sch1.jobs[key := |sch1.tasks|]), db1, true)
  }

  /** Scheduling keeps the job map consistent; when the expression is
      refused, no job of the key is left live; and the jobs of other keys
      are untouched. */
  lemma ScheduleKeepsJobsValid(sch: Scheduler, db: Db, userId: UserId, phone: string, mealType: string,
                               time: string, accepts: string -> bool)
    requires JobsValid(sch)
    ensures var r := ScheduleCustomReminder(sch, db, userId, phone, mealType, time, accepts);
      JobsValid(r.0)
      && (!r.2 ==> forall i | 0 <= i < |r.0.tasks| :: r.0.tasks[i].key == JobKey(phone, mealType) ==> r.0.tasks[i].stopped)
      && forall key | key in sch.jobs && key != JobKey(phone, mealType) :: r.0.tasks[sch.jobs[key]] == sch.tasks[sch.jobs[key]]
  {
    var key := JobKey(phone, mealType);
    var sch1 := StopJob(sch, key);
    StopKeepsJobsValid(sch, key);
    var cron := CronExpression(time);
    if accepts(cron) {
      AddKeepsJobsValid(sch1, Task(key, cron, phone, CustomMessage(mealType), false));
    }
  }

  lemma StopKeepsJobsValid(sch: Scheduler, key: string)
    requires JobsValid(sch)
    ensures JobsValid(StopJob(sch, key))
  {
    var sch1 := StopJob(sch, key);
    forall i | 0 <= i < |sch1.tasks| && !sch1.tasks[i].stopped
      ensures sch1.tasks[i].key in sch1.jobs && sch1.jobs[sch1.tasks[i].key] == i
    {
      assert sch1.tasks[i] == sch.tasks[i];
    }
  }

  /** Creating a live job and pointing its key at it. */
  lemma AddKeepsJobsValid(sch: Scheduler, task: Task)
    requires JobsValid(sch)
    requires task.key in sch.jobs ==> sch.tasks[sch.jobs[task.key]].stopped
    ensures var sch2 := Scheduler(sch.tasks + [task], sch.jobs[task.key := |sch.tasks|]);
      JobsValid(sch2) && forall i | 0 <= i < |sch.tasks| :: sch2.tasks[i] == sch.tasks[i]
  {
    var sch2 := Scheduler(sch.tasks + [task], sch.jobs[task.key := |sch.tasks|]);
    assert sch2.tasks[|sch.tasks|] == task;
    assert forall i | 0 <= i < |sch.tasks| :: sch2.tasks[i] == sch.tasks[i];
  }
}
