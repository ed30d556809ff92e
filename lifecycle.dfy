/**
 * One firing of a reminder's cron job. The job holds the reminder record it
 * read once when it was scheduled and keeps using (and updating) that copy:
 * it never reads the database again. A fire that cannot find the guild or the
 * channel does nothing; otherwise, while the occurrence budget allows
 * (`times === -1 || sent < times`), it sends the message, counts it and writes
 * the record back; once the budget is spent it deletes the record, but the
 * job itself is never stopped and keeps firing.
 */
module Lifecycle {
  import opened KeyValue
  import opened Reminders
  import opened Schedule

  /** The guilds in the client's cache, each with the ids of its cached channels. */
  datatype Directory = Directory(channels: map<string, set<string>>)

  /** `client.guilds.cache.get(guildId)` and then `guild.channels.cache.get(channel)` both succeed. */
  predicate Resolves(dir: Directory, guildId: string, channel: string)
  {
    guildId in dir.channels && channel in dir.channels[guildId]
  }

  /** One `ch.send(message)` that went through. */
  datatype Delivery = Delivery(guildId: string, channel: string, message: string)

  datatype Outcome =
    | Unresolved             // guild or channel not found: nothing happens
    | Delivered(delivery: Delivery)
    | SendRejected           // `ch.send` rejected: the callback stops before counting
    | Retired                // budget spent: the record is deleted
    | Absent                 // only the re-reading step below: the record is gone

  /** `reminder.times === -1 || reminder.sent < reminder.times`. */
  predicate HasBudget(r: Reminder)
  {
    r.times == -1 || r.sent < r.times
  }

  /** How many fires deliver, starting from `sent = 0`, when `times` is not -1. */
  function Budget(r: Reminder): nat
  {
    if r.times < 0 then 0 else r.times
  }

  /** What one fire yields: its outcome, the job's copy of the record, the database. */
  datatype Step = Step(outcome: Outcome, reminder: Reminder, db: Db<Value>)

  /** The cron callback of the job for key `id` holding record `r`. */
  function FireStep(id: string, r: Reminder, db: Db<Value>, dir: Directory, sendOk: bool): (s: Step)
    requires db.Valid()
    ensures s.db.Valid()
    ensures forall k :: k != id ==> Get(s.db, k) == Get(db, k)
    ensures !Resolves(dir, r.guildId, r.channel) ==> s == Step(Unresolved, r, db)
    ensures s.outcome.Delivered? <==> Resolves(dir, r.guildId, r.channel) && HasBudget(r) && sendOk
    ensures s.outcome.Delivered? ==> s.outcome.delivery == Delivery(r.guildId, r.channel, r.message)
    ensures s.reminder == r.(sent := if s.outcome.Delivered? then r.sent + 1 else r.sent)
    ensures s.outcome.Delivered? ==> s.db == Put(db, id, Record(s.reminder))
    ensures s.outcome.SendRejected? <==> Resolves(dir, r.guildId, r.channel) && HasBudget(r) && !sendOk
    ensures s.outcome.Retired? <==> Resolves(dir, r.guildId, r.channel) && !HasBudget(r)
    ensures s.outcome.Retired? ==> s.db == Remove(db, id)
    ensures !s.outcome.Delivered? && !s.outcome.Retired? ==> s.db == db && s.reminder == r
  {
    if !Resolves(dir, r.guildId, r.channel) then Step(Unresolved, r, db)
    else if HasBudget(r) then
      if !sendOk then Step(SendRejected, r, db)
      else
        // `reminder.sent = (reminder.sent || 0) + 1`: `sent` is a number, so `sent || 0` is `sent`
        var next := r.(sent := r.sent + 1);
        Step(Delivered(Delivery(r.guildId, r.channel, r.message)), next, Put(db, id, Record(next)))
    else Step(Retired, r, Remove(db, id))
  }

  /** The state after some fires: the job's copy, the database and the number of deliveries. */
  datatype Run = Run(reminder: Reminder, db: Db<Value>, delivered: nat)

  /** `n` consecutive fires in which the guild and channel resolve and every send goes through. */
  function FireRepeatedly(id: string, r: Reminder, db: Db<Value>, dir: Directory, n: nat): (run: Run)
    requires db.Valid()
    ensures run.db.Valid()
    ensures forall k :: k != id ==> Get(run.db, k) == Get(db, k)
  {
    if n == 0 then Run(r, db, 0)
    else
      var prev := FireRepeatedly(id, r, db, dir, n - 1);
      var s := FireStep(id, prev.reminder, prev.db, dir, true);
      Run(s.reminder, s.db, prev.delivered + if s.outcome.Delivered? then 1 else 0)
  }

  /**
   * With a budget `times = N` other than -1 and `sent = 0`: each of the first
   * N fires delivers once, raises `sent` by one and writes the record; every
   * later fire leaves the record deleted and delivers nothing. A budget of 0 or
   * below (other than -1) deletes on the first fire.
   */
  lemma {:induction false} FiniteBudget(id: string, r: Reminder, db: Db<Value>, dir: Directory, n: nat)
    requires db.Valid()
    requires r.times != -1 && r.sent == 0
    requires Resolves(dir, r.guildId, r.channel)
    ensures var run := FireRepeatedly(id, r, db, dir, n);
      && run.delivered == (if n <= Budget(r) then n else Budget(r))
      && run.reminder == r.(sent := if n <= Budget(r) then n else Budget(r))
      && (0 < n <= Budget(r) ==> Get(run.db, id) == Some(Record(r.(sent := n))))
      && (n > Budget(r) ==> Get(run.db, id) == None)
  {
    if n > 0 {
      FiniteBudget(id, r, db, dir, n - 1);
      var prev := FireRepeatedly(id, r, db, dir, n - 1);
      var s := FireStep(id, prev.reminder, prev.db, dir, true);
      assert FireRepeatedly(id, r, db, dir, n) == Run(s.reminder, s.db, prev.delivered + if s.outcome.Delivered? then 1 else 0);
      if n - 1 < Budget(r) {
        assert prev.reminder == r.(sent := n - 1);
        assert HasBudget(prev.reminder);
        assert s.reminder == r.(sent := n);
        assert s.db == Put(prev.db, id, Record(r.(sent := n)));
      } else {
        assert prev.reminder == r.(sent := Budget(r));
        assert !HasBudget(prev.reminder);
        assert s == Step(Retired, prev.reminder, Remove(prev.db, id));
      }
    }
  }

  /** With `times = -1` every fire delivers and the record, counting up, is never deleted. */
  lemma {:induction false} UnboundedBudget(id: string, r: Reminder, db: Db<Value>, dir: Directory, n: nat)
    requires db.Valid()
    requires r.times == -1
    requires Resolves(dir, r.guildId, r.channel)
    ensures var run := FireRepeatedly(id, r, db, dir, n);
      && run.delivered == n
      && run.reminder == r.(sent := r.sent + n)
      && (n > 0 ==> Get(run.db, id) == Some(Record(r.(sent := r.sent + n))))
  {
    if n > 0 {
      UnboundedBudget(id, r, db, dir, n - 1);
    }
  }

  /** While the guild or channel cannot be resolved, no number of fires changes anything. */
  lemma {:induction false} UnresolvedFiresChangeNothing(id: string, r: Reminder, db: Db<Value>, dir: Directory, n: nat)
    requires db.Valid()
    requires !Resolves(dir, r.guildId, r.channel)
    ensures FireRepeatedly(id, r, db, dir, n) == Run(r, db, 0)
  {
    if n > 0 {
      UnresolvedFiresChangeNothing(id, r, db, dir, n - 1);
    }
  }

  /**
   * The job does not look at the database before writing: once the record is
   * deleted (by cancelling it or by deleting all reminders), the next fire
   * with budget left sends the message again and writes the record back,
   * listed last.
   */
  lemma DeletedReminderIsWrittenBack(db: Db<Value>, id: string, r: Reminder, dir: Directory)
    requires db.Valid()
    requires IsReminderKey(id)
    requires Resolves(dir, r.guildId, r.channel) && HasBudget(r)
    ensures var gone := Remove(db, id);
      var s := FireStep(id, r, gone, dir, true);
      && s.outcome.Delivered?
      && Listing(s.db) == Listing(gone) + [Entry(id, Record(r.(sent := r.sent + 1)))]
  {
    var gone := Remove(db, id);
    var next := r.(sent := r.sent + 1);
    assert FireStep(id, r, gone, dir, true).db == Put(gone, id, Record(next));
    ListingAfterCreate(gone, id, Record(next));
  }

  /**
   * The fire step re-reading the record first: a deleted record stays deleted
   * and nothing is sent; a live record is fired from its stored state.
   */
  function FireStepRereading(id: string, r: Reminder, db: Db<Value>, dir: Directory, sendOk: bool): (s: Step)
    requires db.Valid()
    ensures Get(db, id) == None ==> s.db == db && !s.outcome.Delivered?
    ensures id in db.entries && db.entries[id].Record? ==> s == FireStep(id, db.entries[id].reminder, db, dir, sendOk)
  {
    if id in db.entries && db.entries[id].Record? then FireStep(id, db.entries[id].reminder, db, dir, sendOk)
    else Step(Absent, r, db)
  }

  /** `n` fires of the re-reading step in which every send goes through. */
  function FireRereadingRepeatedly(id: string, r: Reminder, db: Db<Value>, dir: Directory, n: nat): (run: Run)
    requires db.Valid()
    ensures run.db.Valid()
  {
    if n == 0 then Run(r, db, 0)
    else
      var prev := FireRereadingRepeatedly(id, r, db, dir, n - 1);
      var s := FireStepRereading(id, prev.reminder, prev.db, dir, true);
      Run(s.reminder, s.db, prev.delivered + if s.outcome.Delivered? then 1 else 0)
  }

  /**
   * With the re-reading step, a deleted reminder stays deleted: however many
   * times its job fires, nothing is sent and the database does not change.
   */
  lemma {:induction false} DeletedReminderStaysDeleted(db: Db<Value>, id: string, r: Reminder, dir: Directory, n: nat)
    requires db.Valid()
    requires Get(db, id) == None
    ensures var run := FireRereadingRepeatedly(id, r, db, dir, n);
      run.db == db && run.delivered == 0
  {
    if n > 0 {
      DeletedReminderStaysDeleted(db, id, r, dir, n - 1);
    }
  }

  /** A scheduled cron job: its expression, its timezone and its own copy of the record. */
  class ReminderJob {
    const id: string
    const expression: string
    const timezone: string
    var reminder: Reminder

    /** `scheduleReminder` once it has read record `r` under `id`. */
    constructor (id: string, r: Reminder)
      ensures this.id == id && reminder == r
      ensures expression == CronExpression(r) && timezone == ScheduleTimezone(r)
    {
      this.id := id;
      expression := CronExpression(r);
      timezone := ScheduleTimezone(r);
      reminder := r;
    }

    /** The callback run at each matching minute. */
    method Fire(store: Store<Value>, dir: Directory, sendOk: bool) returns (outcome: Outcome)
      requires store.Valid()
      modifies this, store
      ensures store.Valid()
      ensures var s := FireStep(id, old(reminder), old(store.State()), dir, sendOk);
        outcome == s.outcome && reminder == s.reminder && store.State() == s.db
    {
      if !Resolves(dir, reminder.guildId, reminder.channel) {
        return Unresolved;
      }
      if HasBudget(reminder) {
        if !sendOk {
          return SendRejected;
        }
        var delivery := Delivery(reminder.guildId, reminder.channel, reminder.message);
        reminder := reminder.(sent := reminder.sent + 1);
        store.Set(id, Record(reminder));
        outcome := Delivered(delivery);
      } else {
        store.Delete(id);
        outcome := Retired;
      }
    }

    /** The corrected callback: it reloads the record and does nothing once the record is gone. */
    method FireRereading(store: Store<Value>, dir: Directory, sendOk: bool) returns (outcome: Outcome)
      requires store.Valid()
      modifies this, store
      ensures store.Valid()
      ensures var s := FireStepRereading(id, old(reminder), old(store.State()), dir, sendOk);
        outcome == s.outcome && reminder == s.reminder && store.State() == s.db
    {
      var db := store.State();
      if id in db.entries && db.entries[id].Record? {
        reminder := db.entries[id].reminder;
        outcome := Fire(store, dir, sendOk);
      } else {
        outcome := Absent;
      }
    }
  }
}
