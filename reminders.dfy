/**
 * What the bot keeps in its database: one record per reminder under a key
 * `reminder_<timestamp>`, one timezone string per guild under `tz_<guildId>`.
 * Every listing of reminders is `db.all()` filtered on the `reminder_` key
 * prefix, whatever guild the records belong to.
 */
module Reminders {
  import opened Strings
  import opened KeyValue

  /**
   * A stored reminder. A field the JavaScript record could lack reads as
   * falsy there; every record here is written by the create command, which
   * sets every field, and "" stands for an empty string option.
   */
  datatype Reminder = Reminder(
    guildId: string,
    channel: string,
    time: string,      // "HH:MM" as typed by the user, never parsed
    repeat: string,    // always "everyday", never read
    times: int,        // occurrence budget, -1 for unbounded
    sent: int,         // deliveries so far
    message: string,
    timezone: string,
    days: string)      // day-of-week list as typed, e.g. "1,3"; "" for every day

  /** A stored JSON value: a reminder record or a timezone string. */
  datatype Value = Record(reminder: Reminder) | Text(text: string)

  const ReminderPrefix: string := "reminder_"
  const TimezonePrefix: string := "tz_"

  /** `String(e.id).startsWith('reminder_')`. */
  predicate IsReminderKey(k: string)
  {
    HasPrefix(k, ReminderPrefix)
  }

  /** The key `reminder_${stamp}` of a reminder created at time `stamp`. */
  function ReminderKey(stamp: nat): (k: string)
    ensures IsReminderKey(k)
  {
    ReminderPrefix + Decimal(stamp)
  }

  /** The key `tz_${guildId}` of a guild's timezone setting. */
  function TimezoneKey(guildId: string): (k: string)
    ensures !IsReminderKey(k)
  {
    var k := TimezonePrefix + guildId;
    assert k[0] != ReminderPrefix[0];
    k
  }

  /** Reminders created at different times get different keys. */
  lemma ReminderKeyInjective(a: nat, b: nat)
    ensures ReminderKey(a) == ReminderKey(b) <==> a == b
  {
    if ReminderKey(a) == ReminderKey(b) {
      assert Decimal(a) == ReminderKey(a)[|ReminderPrefix|..];
      assert Decimal(b) == ReminderKey(b)[|ReminderPrefix|..];
      DecimalInjective(a, b);
    }
  }

  /** Records sit exactly under `reminder_` keys; every other key holds a string. */
  ghost predicate WellTyped(db: Db<Value>)
  {
    forall k :: Get(db, k).Some? ==> (Get(db, k).value.Record? <==> IsReminderKey(k))
  }

  /** Deleting a key keeps records under `reminder_` keys only. */
  lemma WellTypedRemove(db: Db<Value>, k: string)
    requires db.Valid() && WellTyped(db)
    ensures WellTyped(Remove(db, k))
  {
  }

  /** `all.filter(e => String(e.id).startsWith('reminder_'))`. */
  function ReminderEntries(es: seq<Entry<Value>>): (r: seq<Entry<Value>>)
    ensures |r| <= |es|
    ensures |es| == 1 ==> r == if IsReminderKey(es[0].id) then es else []
  {
    if es == [] then []
    else if IsReminderKey(es[0].id) then [es[0]] + ReminderEntries(es[1..])
    else ReminderEntries(es[1..])
  }

  /** The filter keeps exactly the entries under `reminder_` keys. */
  lemma {:induction false} ReminderEntriesMembers(es: seq<Entry<Value>>)
    ensures var r := ReminderEntries(es);
      forall i :: 0 <= i < |r| ==> r[i] in es && IsReminderKey(r[i].id)
    ensures var r := ReminderEntries(es);
      forall i :: 0 <= i < |es| && IsReminderKey(es[i].id) ==> es[i] in r
  {
    if es != [] {
      var rest := es[1..];
      ReminderEntriesMembers(rest);
      var r, r' := ReminderEntries(es), ReminderEntries(rest);
      assert r == if IsReminderKey(es[0].id) then [es[0]] + r' else r';
      forall i | 0 <= i < |r| ensures r[i] in es && IsReminderKey(r[i].id) {
        var j := if IsReminderKey(es[0].id) then i - 1 else i;
        if j >= 0 {
          assert r[i] == r'[j] && r'[j] in rest && IsReminderKey(r'[j].id);
          var m :| 0 <= m < |rest| && rest[m] == r'[j];
          assert es[m + 1] == r[i];
        } else {
          assert r[i] == es[0];
        }
      }
      forall i | 0 <= i < |es| && IsReminderKey(es[i].id) ensures es[i] in r {
        if i > 0 {
          assert es[i] == rest[i - 1];
        }
      }
    }
  }

  /** The reminders of the database in the order every command lists them. */
  function Listing(db: Db<Value>): seq<Entry<Value>>
    requires db.Valid()
  {
    ReminderEntries(All(db))
  }

  /**
   * The filter of a concatenation is the concatenation of the filters; with the
   * one-entry case of `ReminderEntries` this fixes the order of the listing.
   */
  lemma {:induction false} ReminderEntriesAppend(a: seq<Entry<Value>>, b: seq<Entry<Value>>)
    ensures ReminderEntries(a + b) == ReminderEntries(a) + ReminderEntries(b)
  {
    if a == [] {
      assert a + b == b;
    } else {
      var ab := a + b;
      assert ab[0] == a[0];
      assert ab[1..] == a[1..] + b;
      ReminderEntriesAppend(a[1..], b);
      if IsReminderKey(a[0].id) {
        calc {
          ReminderEntries(ab);
          [a[0]] + ReminderEntries(a[1..] + b);
          [a[0]] + (ReminderEntries(a[1..]) + ReminderEntries(b));
          ([a[0]] + ReminderEntries(a[1..])) + ReminderEntries(b);
        }
      }
    }
  }

  lemma {:induction false} ReminderEntriesUnique(es: seq<Entry<Value>>)
    requires UniqueIds(es)
    ensures UniqueIds(ReminderEntries(es))
  {
    if es != [] {
      var rest := es[1..];
      assert UniqueIds(rest) by {
        forall a, b | 0 <= a < b < |rest| ensures rest[a].id != rest[b].id {
          assert rest[a] == es[a + 1] && rest[b] == es[b + 1];
        }
      }
      ReminderEntriesUnique(rest);
      if IsReminderKey(es[0].id) {
        ReminderEntriesMembers(rest);
        var r := ReminderEntries(rest);
        forall j | 0 <= j < |r| ensures r[j].id != es[0].id {
          var m :| 0 <= m < |rest| && rest[m] == r[j];
          assert rest[m] == es[m + 1];
        }
      }
    }
  }

  lemma {:induction false} ReminderEntriesDropId(es: seq<Entry<Value>>, k: string)
    ensures ReminderEntries(DropId(es, k)) == DropId(ReminderEntries(es), k)
  {
    if es != [] {
      ReminderEntriesDropId(es[1..], k);
    }
  }

  lemma {:induction false} ListedUpdateOtherKey(keys: seq<string>, entries: map<string, Value>, k: string, v: Value)
    requires forall x :: x in keys ==> x in entries
    requires !IsReminderKey(k)
    ensures ReminderEntries(Listed(keys, entries[k := v])) == ReminderEntries(Listed(keys, entries))
  {
    if keys != [] {
      ListedUpdateOtherKey(keys[1..], entries, k, v);
      assert Listed(keys, entries)[1..] == Listed(keys[1..], entries);
      assert Listed(keys, entries[k := v])[1..] == Listed(keys[1..], entries[k := v]);
    }
  }

  /** The ids listed are exactly the stored `reminder_` keys, each once. */
  lemma ListingIds(db: Db<Value>)
    requires db.Valid()
    ensures UniqueIds(Listing(db))
    ensures forall x :: x in Ids(Listing(db)) <==> x in db.entries && IsReminderKey(x)
  {
    ReminderEntriesUnique(All(db));
    forall x | x in db.entries && IsReminderKey(x) ensures x in Ids(Listing(db)) {
      StoredReminderIsListed(db, x);
    }
    forall x | x in Ids(Listing(db)) ensures x in db.entries && IsReminderKey(x) {
      ListedIdIsStoredReminder(db, x);
    }
  }

  lemma StoredReminderIsListed(db: Db<Value>, x: string)
    requires db.Valid()
    requires x in db.entries && IsReminderKey(x)
    ensures x in Ids(Listing(db))
  {
    var es, rs := All(db), Listing(db);
    var i :| 0 <= i < |db.keys| && db.keys[i] == x;
    ReminderEntriesMembers(es);
    assert es[i] in rs;
    var j :| 0 <= j < |rs| && rs[j] == es[i];
    assert Ids(rs)[j] == x;
  }

  lemma ListedIdIsStoredReminder(db: Db<Value>, x: string)
    requires db.Valid()
    requires x in Ids(Listing(db))
    ensures x in db.entries && IsReminderKey(x)
  {
    var es, rs := All(db), Listing(db);
    var j :| 0 <= j < |rs| && Ids(rs)[j] == x;
    ReminderEntriesMembers(es);
    assert rs[j] in es;
    var i :| 0 <= i < |es| && es[i] == rs[j];
  }

  /** A new `reminder_` key is listed last; nothing else in the listing moves. */
  lemma ListingAfterCreate(db: Db<Value>, k: string, v: Value)
    requires db.Valid()
    requires IsReminderKey(k) && k !in db.entries
    ensures Listing(Put(db, k, v)) == Listing(db) + [Entry(k, v)]
  {
    var db' := Put(db, k, v);
    ListedAppend(db.keys, k, db'.entries);
    ListedUpdateOtherKeyFresh(db.keys, db.entries, k, v);
    ReminderEntriesAppend(Listed(db.keys, db.entries), [Entry(k, v)]);
  }

  lemma {:induction false} ListedUpdateOtherKeyFresh(keys: seq<string>, entries: map<string, Value>, k: string, v: Value)
    requires forall x :: x in keys ==> x in entries
    requires k !in keys
    ensures Listed(keys, entries[k := v]) == Listed(keys, entries)
  {
    if keys != [] {
      ListedUpdateOtherKeyFresh(keys[1..], entries, k, v);
    }
  }

  /** Writing a key outside the `reminder_` prefix leaves the listing as it was. */
  lemma ListingIgnoresOtherKeys(db: Db<Value>, k: string, v: Value)
    requires db.Valid()
    requires !IsReminderKey(k)
    ensures Listing(Put(db, k, v)) == Listing(db)
  {
    var db' := Put(db, k, v);
    ListedUpdateOtherKey(db.keys, db.entries, k, v);
    if k !in db.entries {
      ListedAppend(db.keys, k, db'.entries);
      ReminderEntriesAppend(Listed(db.keys, db'.entries), [Entry(k, v)]);
    }
  }

  /** Deleting a key drops its reminder from the listing and keeps the order of the rest. */
  lemma ListingAfterRemove(db: Db<Value>, k: string)
    requires db.Valid()
    ensures Listing(Remove(db, k)) == DropId(Listing(db), k)
  {
    ListedRemove(db.keys, k, db.entries);
    ReminderEntriesDropId(All(db), k);
  }
}
