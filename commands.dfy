/**
 * The bot as a whole: its database, the cron jobs it has scheduled and the
 * messages its jobs have delivered, with one method per slash command and per
 * button. A command talks to the database only; it never stops, replaces or
 * updates a job, and no command looks at the guild it was issued from except
 * to read or write that guild's timezone.
 */
module Commands {
  import opened Strings
  import opened KeyValue
  import opened Reminders
  import opened Schedule
  import opened Lifecycle
  import opened ListCommands

  const Created: string := "\U{2705} Reminder creato!"

  /** The reply of `/settimezone`. */
  function TimezoneReply(tz: string): string
  {
    "Timezone impostato a: **" + tz + "**"
  }

  /** `await db.get(`tz_${guildId}`) || 'UTC'`: a stored non-empty timezone, else UTC. */
  function GuildTimezone(db: Db<Value>, guildId: string): (tz: string)
    ensures tz != ""
    ensures Get(db, TimezoneKey(guildId)) == None ==> tz == "UTC"
    ensures forall t :: Get(db, TimezoneKey(guildId)) == Some(Text(t)) && t != "" ==> tz == t
    ensures Get(db, TimezoneKey(guildId)) == Some(Text("")) ==> tz == "UTC"
  {
    var stored := Get(db, TimezoneKey(guildId));
    if stored.Some? && stored.value.Text? && stored.value.text != "" then stored.value.text else "UTC"
  }

  /**
   * The record `/setreminder` stores: `times` defaults to -1 when the option
   * is missing (`?? -1`), `days` to the empty string (`|| ''`).
   */
  function NewReminder(guildId: string, channel: string, time: string, message: string,
                       times: Option<int>, days: Option<string>, timezone: string): Reminder
  {
    Reminder(guildId, channel, time, "everyday",
             if times.Some? then times.value else -1,
             0, message, timezone,
             if days.Some? then days.value else "")
  }

  /** The record stored under `id`, if a record is stored there. */
  function StoredRecord(db: Db<Value>, id: string): Option<Reminder>
  {
    if id in db.entries && db.entries[id].Record? then Some(db.entries[id].reminder) else None
  }

  /** Setting a guild's timezone is what the next reminder of that guild reads back. */
  lemma TimezoneSetThenRead(db: Db<Value>, guildId: string, tz: string)
    requires db.Valid()
    ensures GuildTimezone(Put(db, TimezoneKey(guildId), Text(tz)), guildId) == if tz != "" then tz else "UTC"
  {
  }

  /** The timezone keys of different guilds differ, so each guild keeps its own setting. */
  lemma TimezoneKeyInjective(a: string, b: string)
    ensures TimezoneKey(a) == TimezoneKey(b) <==> a == b
  {
    if TimezoneKey(a) == TimezoneKey(b) {
      assert a == TimezoneKey(a)[|TimezonePrefix|..];
      assert b == TimezoneKey(b)[|TimezonePrefix|..];
    }
  }

  /** Setting one guild's timezone leaves another guild's timezone and the reminder listing as they were. */
  lemma TimezoneSettingIsLocal(db: Db<Value>, guildId: string, tz: string, other: string)
    requires db.Valid()
    requires other != guildId
    ensures GuildTimezone(Put(db, TimezoneKey(guildId), Text(tz)), other) == GuildTimezone(db, other)
    ensures Listing(Put(db, TimezoneKey(guildId), Text(tz))) == Listing(db)
  {
    TimezoneKeyInjective(guildId, other);
    ListingIgnoresOtherKeys(db, TimezoneKey(guildId), Text(tz));
  }

  /**
   * What a freshly created reminder schedules: at the time's `mm hh`, on every
   * day unless days were given, in the guild's timezone (UTC when none is set);
   * without `times` it is unbounded, and it starts at zero deliveries.
   */
  lemma NewReminderSchedule(db: Db<Value>, guildId: string, channel: string, hh: string, mm: string,
                            message: string, times: Option<int>, days: Option<string>)
    requires ':' !in hh && ':' !in mm
    ensures var r := NewReminder(guildId, channel, hh + ":" + mm, message, times, days, GuildTimezone(db, guildId));
      && r.sent == 0
      && r.times == (if times.Some? then times.value else -1)
      && (times.None? ==> HasBudget(r))
      && ScheduleTimezone(r) == GuildTimezone(db, guildId)
      && (days.None? ==> CronExpression(r) == mm + " " + hh + " * * *")
      && (days.Some? && !Blank(days.value) ==> CronExpression(r) == mm + " " + hh + " * * " + days.value)
  {
    var r := NewReminder(guildId, channel, hh + ":" + mm, message, times, days, GuildTimezone(db, guildId));
    CronExpressionOfClockTime(r, hh, mm);
    assert Blank("");
  }

  /**
   * Deleting all reminders does not silence a job with budget left: its next
   * fire sends again and the list, empty after the delete, shows that reminder.
   */
  lemma PurgedReminderIsWrittenBack(db: Db<Value>, id: string, r: Reminder, dir: Directory)
    requires db.Valid()
    requires IsReminderKey(id)
    requires Resolves(dir, r.guildId, r.channel) && HasBudget(r)
    ensures var s := FireStep(id, r, Purge(db), dir, true);
      && s.outcome.Delivered?
      && Listing(s.db) == [Entry(id, Record(r.(sent := r.sent + 1)))]
  {
    var purged := Purge(db);
    assert Get(purged, id) == None;
    ListingAfterCreate(purged, id, Record(r.(sent := r.sent + 1)));
  }

  /** The database, the scheduled jobs and the deliveries so far. */
  class Bot {
    const store: Store<Value>
    var jobs: seq<ReminderJob>
    var deliveries: seq<Delivery>

    /** Records only under `reminder_` keys, and every job is for a `reminder_` key. */
    ghost predicate Valid()
      reads this, store
    {
      store.Valid() && WellTyped(store.State()) && forall j :: j in jobs ==> IsReminderKey(j.id)
    }

    /**
     * A bot started over the database `db0` it finds on disk: the stored
     * reminders are there, but no job is created for any of them.
     */
    constructor (db0: Db<Value>)
      requires db0.Valid() && WellTyped(db0)
      ensures Valid() && fresh(store)
      ensures store.State() == db0 && jobs == [] && deliveries == []
    {
      store := new Store<Value>(db0);
      jobs := [];
      deliveries := [];
    }

    /** `/settimezone timezone`. */
    method SetTimezone(guildId: string, tz: string) returns (reply: string)
      requires Valid()
      modifies store
      ensures Valid()
      ensures store.State() == Put(old(store.State()), TimezoneKey(guildId), Text(tz))
      ensures reply == TimezoneReply(tz)
    {
      store.Set(TimezoneKey(guildId), Text(tz));
      reply := TimezoneReply(tz);
    }

    /** `scheduleReminder(id)`: a job is created only if a record is stored under `id`. */
    method ScheduleReminder(id: string)
      requires Valid()
      modifies this
      ensures Valid() && deliveries == old(deliveries)
      ensures StoredRecord(store.State(), id).None? ==> jobs == old(jobs)
      ensures StoredRecord(store.State(), id).Some? ==>
        var r := StoredRecord(store.State(), id).value;
        && |jobs| == |old(jobs)| + 1 && jobs[..|old(jobs)|] == old(jobs)
        && fresh(jobs[|old(jobs)|])
        && jobs[|old(jobs)|].id == id && jobs[|old(jobs)|].reminder == r
        && jobs[|old(jobs)|].expression == CronExpression(r)
        && jobs[|old(jobs)|].timezone == ScheduleTimezone(r)
    {
      var db := store.State();
      if id in db.entries && db.entries[id].Record? {
        assert Get(db, id).Some?;
        var job := new ReminderJob(id, db.entries[id].reminder);
        jobs := jobs + [job];
        assert jobs[..|old(jobs)|] == old(jobs);
      }
    }

    /** `/setreminder`, issued at time `now` (`Date.now()`). */
    method SetReminder(guildId: string, channel: string, time: string, message: string,
                       times: Option<int>, days: Option<string>, now: nat) returns (reply: string)
      requires Valid()
      modifies this, store
      ensures Valid() && deliveries == old(deliveries)
      ensures var r := NewReminder(guildId, channel, time, message, times, days, GuildTimezone(old(store.State()), guildId));
        && store.State() == Put(old(store.State()), ReminderKey(now), Record(r))
        && |jobs| == |old(jobs)| + 1 && jobs[..|old(jobs)|] == old(jobs)
        && fresh(jobs[|old(jobs)|])
        && jobs[|old(jobs)|].id == ReminderKey(now) && jobs[|old(jobs)|].reminder == r
        && jobs[|old(jobs)|].expression == CronExpression(r)
        && jobs[|old(jobs)|].timezone == ScheduleTimezone(r)
      ensures reply == Created
    {
      var id := ReminderKey(now);
      var tz := GuildTimezone(store.State(), guildId);
      var r := NewReminder(guildId, channel, time, message, times, days, tz);
      store.Set(id, Record(r));
      ScheduleReminder(id);
      reply := Created;
    }

    /** `/reminderlist`. */
    method ReminderList() returns (reply: Reply)
      requires Valid()
      ensures reply == ListReply(store.State())
    {
      var rs := Listing(store.State());
      if |rs| == 0 {
        reply := Message(NoReminders);
      } else {
        reply := Embed(ListTitle, Join(Lines(rs), '\n'));
      }
    }

    /** `/remindercanc numero`: the job of the deleted reminder keeps running. */
    method ReminderCanc(n: int) returns (reply: string)
      requires Valid()
      modifies store
      ensures Valid()
      ensures var res := Cancel(old(store.State()), n);
        store.State() == res.db && reply == res.reply
    {
      ghost var db0 := store.State();
      var rs := Listing(store.State());
      var index := n - 1;
      if 0 <= index < |rs| {
        var id := rs[index].id;
        assert Cancel(db0, n) == CancelResult(Remove(db0, id), Cancelled);
        WellTypedRemove(db0, id);
        store.Delete(id);
        assert store.State() == Remove(db0, id);
        reply := Cancelled;
        assert Valid() && CancelResult(store.State(), reply) == Cancel(db0, n);
      } else {
        reply := InvalidNumber;
        assert CancelResult(store.State(), reply) == Cancel(db0, n);
      }
    }

    /** `/remindercancall`: asks for confirmation and changes nothing. */
    method RequestDeleteAll() returns (reply: string)
      ensures reply == ConfirmQuestion
    {
      reply := ConfirmQuestion;
    }

    /** The `confirm_delete_all` button: every listed reminder is deleted, one at a time; no job stops. */
    method ConfirmDeleteAll() returns (reply: string)
      requires Valid()
      modifies store
      ensures Valid()
      ensures store.State() == Purge(old(store.State()))
      ensures reply == AllDeleted
    {
      var db0 := store.State();
      var ids := Ids(Listing(db0));
      var i := 0;
      while i < |ids|
        invariant 0 <= i <= |ids|
        invariant store.Valid()
        invariant store.State() == RemoveAll(db0, ids[..i])
      {
        RemoveAllStep(db0, ids, i);
        store.Delete(ids[i]);
        i := i + 1;
      }
      assert ids[..i] == ids;
      DeletingListedPurges(db0);
      reply := AllDeleted;
    }

    /** The `cancel_delete_all` button. */
    method CancelDeleteAll() returns (reply: string)
      ensures reply == DeleteAborted
    {
      reply := DeleteAborted;
    }

    /** Job `j` fires; a message that goes through is recorded as delivered. */
    method Fire(j: ReminderJob, dir: Directory, sendOk: bool) returns (outcome: Outcome)
      requires Valid() && j in jobs
      modifies this, j, store
      ensures Valid() && jobs == old(jobs)
      ensures var s := FireStep(j.id, old(j.reminder), old(store.State()), dir, sendOk);
        outcome == s.outcome && j.reminder == s.reminder && store.State() == s.db
      ensures deliveries == old(deliveries) + if outcome.Delivered? then [outcome.delivery] else []
    {
      outcome := j.Fire(store, dir, sendOk);
      if outcome.Delivered? {
        deliveries := deliveries + [outcome.delivery];
      }
    }
  }
}
