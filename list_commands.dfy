/**
 * The commands that work on the whole reminder listing: `/reminderlist`
 * renders it as numbered lines, `/remindercanc n` deletes the n-th entry, and
 * the confirm button of `/remindercancall` deletes every entry. All three see
 * every `reminder_` key, of every guild.
 */
module ListCommands {
  import opened Strings
  import opened KeyValue
  import opened Reminders

  /** A reply to the user: plain text, or an embed with a title and a description. */
  datatype Reply = Message(text: string) | Embed(title: string, description: string)

  const NoReminders: string := "Nessun reminder."
  const ListTitle: string := "\U{1F514} Lista reminder"
  const InvalidNumber: string := "Numero non valido."
  const Cancelled: string := "\U{274C} Reminder cancellato."
  const AllDeleted: string := "\U{2705} Tutti i reminder sono stati cancellati."
  const DeleteAborted: string := "\U{274E} Operazione annullata, nessun reminder cancellato."
  const ConfirmQuestion: string := "Sei sicuro di voler cancellare **tutti** i reminder?"

  /** `r.value.message`; a value that is not a record has no such property and renders `undefined`. */
  function MessageOf(v: Value): string
  {
    if v.Record? then v.reminder.message else "undefined"
  }

  /** `r.value.time`, likewise. */
  function TimeOf(v: Value): string
  {
    if v.Record? then v.reminder.time else "undefined"
  }

  /** Line `i` (from 0) of the list: `${i + 1}. ${message} (${time})`. */
  function Line(i: nat, v: Value): string
  {
    Decimal(i + 1) + ". " + MessageOf(v) + " (" + TimeOf(v) + ")"
  }

  /** The lines of the list, one per listed entry. */
  function Lines(rs: seq<Entry<Value>>): seq<string>
  {
    seq(|rs|, i requires 0 <= i < |rs| => Line(i, rs[i].value))
  }

  /** The reply of `/reminderlist`. */
  function ListReply(db: Db<Value>): Reply
    requires db.Valid()
  {
    var rs := Listing(db);
    if |rs| == 0 then Message(NoReminders) else Embed(ListTitle, Join(Lines(rs), '\n'))
  }

  /** No line break inside any listed message or time. */
  predicate SingleLineFields(rs: seq<Entry<Value>>)
  {
    forall i :: 0 <= i < |rs| ==> '\n' !in MessageOf(rs[i].value) && '\n' !in TimeOf(rs[i].value)
  }

  /** The list is "Nessun reminder." exactly when nothing is listed. */
  lemma ListReplyEmptyIff(db: Db<Value>)
    requires db.Valid()
    ensures ListReply(db) == Message(NoReminders) <==> Listing(db) == []
    ensures Listing(db) != [] ==> ListReply(db).Embed? && ListReply(db).title == ListTitle
  {
  }

  /**
   * When no listed message or time holds a line break, the lines of the list,
   * read back one by one, are the listed entries in order, numbered from 1.
   */
  lemma ListReplyLines(db: Db<Value>)
    requires db.Valid()
    requires SingleLineFields(Listing(db))
    ensures Listing(db) != [] ==> ListReply(db).Embed? && Split(ListReply(db).description, '\n') == Lines(Listing(db))
    ensures Listing(db) != [] ==>
      var lines := Split(ListReply(db).description, '\n');
      && |lines| == |Listing(db)|
      && forall i :: 0 <= i < |lines| ==>
           lines[i] == Decimal(i + 1) + ". " + MessageOf(Listing(db)[i].value) + " (" + TimeOf(Listing(db)[i].value) + ")"
  {
    var rs := Listing(db);
    if rs != [] {
      var lines := Lines(rs);
      forall i | 0 <= i < |lines| ensures '\n' !in lines[i] {
        LineIsSingle(i, rs[i].value);
      }
      SplitJoin(lines, '\n');
    }
  }

  lemma LineIsSingle(i: nat, v: Value)
    requires '\n' !in MessageOf(v) && '\n' !in TimeOf(v)
    ensures '\n' !in Line(i, v)
  {
  }

  /** Each line opens with its 1-based position, which reads back as that number. */
  lemma LineNumberReadsBack(i: nat, v: Value)
    ensures HasPrefix(Line(i, v), Decimal(i + 1) + ". ")
    ensures ParseDecimal(Decimal(i + 1)) == i + 1
  {
    var p := Decimal(i + 1) + ". ";
    assert Line(i, v) == p + (MessageOf(v) + " (" + TimeOf(v) + ")");
    assert (p + (MessageOf(v) + " (" + TimeOf(v) + ")"))[..|p|] == p;
    ParseDecimalOfDecimal(i + 1);
  }

  /** The database and the reply after `/remindercanc`. */
  datatype CancelResult = CancelResult(db: Db<Value>, reply: string)

  /** `/remindercanc numero`: delete `reminders[numero - 1]` if there is one. */
  function Cancel(db: Db<Value>, n: int): (res: CancelResult)
    requires db.Valid()
    ensures res.db.Valid()
    ensures !(1 <= n <= |Listing(db)|) ==> res == CancelResult(db, InvalidNumber)
  {
    var rs := Listing(db);
    var index := n - 1;
    if 0 <= index < |rs| then CancelResult(Remove(db, rs[index].id), Cancelled)
    else CancelResult(db, InvalidNumber)
  }

  /**
   * A number shown by the list deletes exactly the entry on that line: the
   * listing loses that one entry and keeps the others in order, and no other
   * key changes.
   */
  lemma CancelRemovesNth(db: Db<Value>, n: int)
    requires db.Valid()
    requires 1 <= n <= |Listing(db)|
    ensures var rs := Listing(db);
      var res := Cancel(db, n);
      && res.reply == Cancelled
      && Listing(res.db) == rs[..n - 1] + rs[n..]
      && Get(res.db, rs[n - 1].id) == None
      && (forall k :: k != rs[n - 1].id ==> Get(res.db, k) == Get(db, k))
  {
    var rs := Listing(db);
    ListingAfterRemove(db, rs[n - 1].id);
    ListingIds(db);
    DropIdAt(rs, n - 1);
  }

  /** The `reminder_` keys stored in `db`. */
  function ReminderKeys(db: Db<Value>): set<string>
  {
    set k | k in db.entries && IsReminderKey(k)
  }

  lemma EmptyListing(db: Db<Value>)
    requires db.Valid()
    requires forall k :: k in db.entries ==> !IsReminderKey(k)
    ensures Listing(db) == []
  {
    NoReminderEntries(All(db));
  }

  lemma {:induction false} NoReminderEntries(es: seq<Entry<Value>>)
    requires forall i :: 0 <= i < |es| ==> !IsReminderKey(es[i].id)
    ensures ReminderEntries(es) == []
  {
    if es != [] {
      NoReminderEntries(es[1..]);
    }
  }

  /** The database once every `reminder_` key is deleted. */
  function Purge(db: Db<Value>): (r: Db<Value>)
    requires db.Valid()
    ensures r.Valid()
    ensures forall k :: Get(r, k) == if IsReminderKey(k) then None else Get(db, k)
    ensures Listing(r) == []
    ensures r.keys == FilterOut(db.keys, ReminderKeys(db))
  {
    var r := Db(FilterOut(db.keys, ReminderKeys(db)), db.entries - ReminderKeys(db));
    EmptyListing(r);
    r
  }

  /** The deletes `for (const r of reminders) await db.delete(r.id)`, one after another. */
  function RemoveAll(db: Db<Value>, ids: seq<string>): (r: Db<Value>)
    requires db.Valid()
    ensures r.Valid()
  {
    if ids == [] then db else Remove(RemoveAll(db, ids[..|ids| - 1]), ids[|ids| - 1])
  }

  /** One more delete on top of the deletes of a prefix. */
  lemma RemoveAllStep(db: Db<Value>, ids: seq<string>, i: nat)
    requires db.Valid() && i < |ids|
    ensures RemoveAll(db, ids[..i + 1]) == Remove(RemoveAll(db, ids[..i]), ids[i])
  {
    assert ids[..i + 1][..i] == ids[..i];
  }

  function SetOf(ids: seq<string>): set<string>
  {
    set x | x in ids
  }

  /** Deleting keys one by one deletes them all at once, whatever their order. */
  lemma {:induction false} RemoveAllAtOnce(db: Db<Value>, ids: seq<string>)
    requires db.Valid()
    ensures RemoveAll(db, ids) == Db(FilterOut(db.keys, SetOf(ids)), db.entries - SetOf(ids))
  {
    if ids == [] {
      assert SetOf(ids) == {};
      FilterOutNothing(db.keys);
      assert db.entries - {} == db.entries;
    } else {
      var init, x := ids[..|ids| - 1], ids[|ids| - 1];
      RemoveAllAtOnce(db, init);
      SetOfSnoc(ids);
      RemoveOneMore(db, SetOf(init), x);
    }
  }

  /** One more delete after deleting the keys in `s` is deleting `s + {x}`. */
  lemma RemoveOneMore(db: Db<Value>, s: set<string>, x: string)
    requires db.Valid()
    ensures Db(FilterOut(db.keys, s), db.entries - s).Valid()
    ensures Remove(Db(FilterOut(db.keys, s), db.entries - s), x) == Db(FilterOut(db.keys, s + {x}), db.entries - (s + {x}))
  {
    FilterOutTwice(db.keys, s, {x});
    MapMinusTwice(db.entries, s, x);
  }

  lemma SetOfSnoc(ids: seq<string>)
    requires ids != []
    ensures SetOf(ids) == SetOf(ids[..|ids| - 1]) + {ids[|ids| - 1]}
  {
    assert ids == ids[..|ids| - 1] + [ids[|ids| - 1]];
  }

  lemma MapMinusTwice(m: map<string, Value>, a: set<string>, x: string)
    ensures (m - a) - {x} == m - (a + {x})
  {
  }

  lemma {:induction false} FilterOutNothing(xs: seq<string>)
    ensures FilterOut(xs, {}) == xs
  {
    if xs != [] {
      FilterOutNothing(xs[1..]);
    }
  }

  /** Deleting every listed id, as the confirm button does, is the purge. */
  lemma DeletingListedPurges(db: Db<Value>)
    requires db.Valid()
    ensures RemoveAll(db, Ids(Listing(db))) == Purge(db)
  {
    RemoveAllAtOnce(db, Ids(Listing(db)));
    ListedIdsAreReminderKeys(db);
  }

  lemma ListedIdsAreReminderKeys(db: Db<Value>)
    requires db.Valid()
    ensures SetOf(Ids(Listing(db))) == ReminderKeys(db)
  {
    ListingIds(db);
  }

  /**
   * Creating a reminder in a database with none lists it as line 1; cancelling
   * number 1 then empties the list again.
   */
  lemma CreateListCancel(db: Db<Value>, stamp: nat, r: Reminder)
    requires db.Valid()
    requires Listing(db) == []
    ensures var created := Put(db, ReminderKey(stamp), Record(r));
      && ListReply(created) == Embed(ListTitle, "1. " + r.message + " (" + r.time + ")")
      && Cancel(created, 1).reply == Cancelled
      && ListReply(Cancel(created, 1).db) == Message(NoReminders)
  {
    var k := ReminderKey(stamp);
    ListingIds(db);
    assert k !in db.entries by {
      assert Ids(Listing(db)) == [];
    }
    var created := Put(db, k, Record(r));
    ListingAfterCreate(db, k, Record(r));
    var rs := Listing(created);
    assert rs == [Entry(k, Record(r))];
    var line := Line(0, Record(r));
    assert Decimal(1) == "1";
    assert line == "1. " + r.message + " (" + r.time + ")";
    assert Lines(rs) == [line];
    assert Join([line], '\n') == line;
    CancelRemovesNth(created, 1);
    assert Listing(Cancel(created, 1).db) == [];
  }
}
