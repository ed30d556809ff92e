/**
 * The bot's key-value database (a QuickDB instance): string keys mapped to JSON
 * values, with `get`, `set`, `delete` and `all`. The listing `all()` is taken
 * in insertion order: `set` of a new key appends it, `set` of an existing key
 * keeps its place, `delete` removes it.
 */
module KeyValue {

  datatype Option<T> = None | Some(value: T)

  /** One `{ id, value }` item of the listing `all()`. */
  datatype Entry<V> = Entry(id: string, value: V)

  predicate Distinct(xs: seq<string>)
  {
    forall i, j :: 0 <= i < j < |xs| ==> xs[i] != xs[j]
  }

  /** `xs` without the keys in `drop`, in the same order. */
  function FilterOut(xs: seq<string>, drop: set<string>): (r: seq<string>)
    ensures forall x :: x in r <==> x in xs && x !in drop
    ensures Distinct(xs) ==> Distinct(r)
    ensures |xs| == 1 ==> r == if xs[0] in drop then [] else xs
  {
    if xs == [] then []
    else if xs[0] in drop then FilterOut(xs[1..], drop)
    else
      var rest := FilterOut(xs[1..], drop);
      assert Distinct(xs) ==> xs[0] !in xs[1..];
      [xs[0]] + rest
  }

  /**
   * Filtering a concatenation filters each part and keeps them in that order;
   * with the one-key case of `FilterOut` this fixes the order of the result.
   */
  lemma {:induction false} FilterOutAppend(a: seq<string>, b: seq<string>, drop: set<string>)
    ensures FilterOut(a + b, drop) == FilterOut(a, drop) + FilterOut(b, drop)
  {
    if a == [] {
      assert a + b == b;
    } else {
      assert (a + b)[1..] == a[1..] + b;
      FilterOutAppend(a[1..], b, drop);
    }
  }

  /** Filtering twice is filtering once by both sets. */
  lemma {:induction false} FilterOutTwice(xs: seq<string>, a: set<string>, b: set<string>)
    ensures FilterOut(FilterOut(xs, a), b) == FilterOut(xs, a + b)
  {
    if xs != [] {
      FilterOutTwice(xs[1..], a, b);
    }
  }

  /** The stored state: the listing order and the key-to-value map. */
  datatype Db<V> = Db(keys: seq<string>, entries: map<string, V>)
  {
    /** The listing holds every stored key exactly once. */
    ghost predicate Valid()
    {
      Distinct(keys) && forall k :: k in entries <==> k in keys
    }
  }

  /** `db.get(k)`: the stored value, or nothing. */
  function Get<V>(db: Db<V>, k: string): Option<V>
  {
    if k in db.entries then Some(db.entries[k]) else None
  }

  /** `db.set(k, v)`. */
  function Put<V>(db: Db<V>, k: string, v: V): (r: Db<V>)
    requires db.Valid()
    ensures r.Valid()
    ensures Get(r, k) == Some(v)
    ensures forall k' :: k' != k ==> Get(r, k') == Get(db, k')
    ensures k in db.entries ==> r.keys == db.keys
    ensures k !in db.entries ==> r.keys == db.keys + [k]
  {
    if k in db.entries then Db(db.keys, db.entries[k := v])
    else
      assert forall i :: 0 <= i < |db.keys| ==> db.keys[i] in db.entries;
      Db(db.keys + [k], db.entries[k := v])
  }

  /** `db.delete(k)`. */
  function Remove<V>(db: Db<V>, k: string): (r: Db<V>)
    requires db.Valid()
    ensures r.Valid()
    ensures Get(r, k) == None
    ensures forall k' :: k' != k ==> Get(r, k') == Get(db, k')
    ensures r.keys == FilterOut(db.keys, {k})
  {
    Db(FilterOut(db.keys, {k}), db.entries - {k})
  }

  function Listed<V>(keys: seq<string>, entries: map<string, V>): (es: seq<Entry<V>>)
    requires forall k :: k in keys ==> k in entries
    ensures |es| == |keys|
    ensures forall i :: 0 <= i < |es| ==> es[i] == Entry(keys[i], entries[keys[i]])
  {
    if keys == [] then []
    else [Entry(keys[0], entries[keys[0]])] + Listed(keys[1..], entries)
  }

  /** `db.all()`: every stored pair, in listing order. */
  function All<V>(db: Db<V>): (es: seq<Entry<V>>)
    requires db.Valid()
    ensures |es| == |db.keys|
    ensures forall i :: 0 <= i < |es| ==> es[i].id == db.keys[i] && Get(db, es[i].id) == Some(es[i].value)
  {
    Listed(db.keys, db.entries)
  }

  /** The ids of a listing, in order. */
  function Ids<V>(es: seq<Entry<V>>): (ids: seq<string>)
    ensures |ids| == |es|
    ensures forall i :: 0 <= i < |es| ==> ids[i] == es[i].id
  {
    if es == [] then [] else [es[0].id] + Ids(es[1..])
  }

  /** A listing without the pair whose id is `k`. */
  function DropId<V>(es: seq<Entry<V>>, k: string): (r: seq<Entry<V>>)
    ensures forall i :: 0 <= i < |r| ==> r[i] in es && r[i].id != k
    ensures forall i :: 0 <= i < |es| && es[i].id != k ==> es[i] in r
  {
    if es == [] then []
    else if es[0].id == k then DropId(es[1..], k)
    else [es[0]] + DropId(es[1..], k)
  }

  /** Appending a key to the listing appends its pair. */
  lemma {:induction false} ListedAppend<V>(keys: seq<string>, k: string, entries: map<string, V>)
    requires forall x :: x in keys ==> x in entries
    requires k in entries
    ensures Listed(keys + [k], entries) == Listed(keys, entries) + [Entry(k, entries[k])]
  {
    if keys != [] {
      ListedAppend(keys[1..], k, entries);
      assert (keys + [k])[1..] == keys[1..] + [k];
    }
  }

  /** Deleting a key drops its pair and leaves the rest of the listing in order. */
  lemma {:induction false} ListedRemove<V>(keys: seq<string>, k: string, entries: map<string, V>)
    requires forall x :: x in keys ==> x in entries
    ensures Listed(FilterOut(keys, {k}), entries - {k}) == DropId(Listed(keys, entries), k)
  {
    if keys != [] {
      ListedRemove(keys[1..], k, entries);
      assert Listed(keys, entries)[1..] == Listed(keys[1..], entries);
    }
  }

  /** No two pairs of the listing share an id. */
  predicate UniqueIds<V>(es: seq<Entry<V>>)
  {
    forall a, b :: 0 <= a < b < |es| ==> es[a].id != es[b].id
  }

  /** In a listing with distinct ids, dropping the id at position `i` removes exactly that position. */
  lemma {:induction false} DropIdAt<V>(es: seq<Entry<V>>, i: nat)
    requires i < |es|
    requires UniqueIds(es)
    ensures DropId(es, es[i].id) == es[..i] + es[i + 1..]
  {
    if i == 0 {
      DropIdAtHead(es);
    } else {
      var rest := es[1..];
      UniqueIdsTail(es);
      assert es[0].id != es[i].id;
      assert rest[i - 1] == es[i];
      DropIdAt(rest, i - 1);
      DropIdSkip(es, es[i].id);
      SpliceTail(es, i);
    }
  }

  lemma DropIdSkip<V>(es: seq<Entry<V>>, k: string)
    requires es != [] && es[0].id != k
    ensures DropId(es, k) == [es[0]] + DropId(es[1..], k)
  {
  }

  lemma SpliceTail<V>(es: seq<Entry<V>>, i: nat)
    requires 0 < i < |es|
    ensures [es[0]] + (es[1..][..i - 1] + es[1..][i..]) == es[..i] + es[i + 1..]
  {
    assert es[1..][..i - 1] == es[1..i];
    assert es[1..][i..] == es[i + 1..];
    assert es[..i] == [es[0]] + es[1..i];
  }

  lemma DropIdAtHead<V>(es: seq<Entry<V>>)
    requires es != [] && UniqueIds(es)
    ensures DropId(es, es[0].id) == es[1..]
  {
    var rest := es[1..];
    forall j | 0 <= j < |rest| ensures rest[j].id != es[0].id {
      assert rest[j] == es[j + 1];
    }
    DropIdAbsent(rest, es[0].id);
  }

  lemma UniqueIdsTail<V>(es: seq<Entry<V>>)
    requires es != [] && UniqueIds(es)
    ensures UniqueIds(es[1..])
  {
    var rest := es[1..];
    forall a, b | 0 <= a < b < |rest| ensures rest[a].id != rest[b].id {
      assert rest[a] == es[a + 1] && rest[b] == es[b + 1];
    }
  }

  lemma {:induction false} DropIdAbsent<V>(es: seq<Entry<V>>, k: string)
    requires forall j :: 0 <= j < |es| ==> es[j].id != k
    ensures DropId(es, k) == es
  {
    if es != [] {
      DropIdAbsent(es[1..], k);
    }
  }

  /** The database object: the methods update its state in place. */
  class Store<V> {
    var keys: seq<string>
    var entries: map<string, V>

    function State(): Db<V>
      reads this
    {
      Db(keys, entries)
    }

    ghost predicate Valid()
      reads this
    {
      State().Valid()
    }

    /** Opens the database with the contents `db0` it holds on disk (empty on first start). */
    constructor (db0: Db<V>)
      requires db0.Valid()
      ensures Valid() && State() == db0
    {
      keys := db0.keys;
      entries := db0.entries;
    }

    method Set(k: string, v: V)
      requires Valid()
      modifies this
      ensures Valid() && State() == Put(old(State()), k, v)
    {
      if k !in entries {
        keys := keys + [k];
      }
      entries := entries[k := v];
    }

    method Delete(k: string)
      requires Valid()
      modifies this
      ensures Valid() && State() == Remove(old(State()), k)
    {
      keys := FilterOut(keys, {k});
      entries := entries - {k};
    }
  }
}
