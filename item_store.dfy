/** The record store document of both details fetchers: `{items, invalid, updated_at}`.
    `items` is a Python dict, whose iteration order is its insertion order and is what the
    save routine rearranges, so it is kept here as a sequence of (key, record) entries. */
module ItemStore {
  import opened Wrappers
  import opened Json
  import opened Sorting

  /** The entries of an ordered dict, in iteration order. */
  type Entries<K> = seq<(K, Object)>

  function KeysOf<K>(e: Entries<K>): set<K>
  {
    set i | 0 <= i < |e| :: e[i].0
  }

  predicate DistinctKeys<K(==)>(e: Entries<K>)
  {
    forall i, j :: 0 <= i < j < |e| ==> e[i].0 != e[j].0
  }

  lemma KeysOfCons<K>(x: (K, Object), e: Entries<K>)
    ensures KeysOf([x] + e) == {x.0} + KeysOf(e)
  {
    var xe := [x] + e;
    assert xe[0].0 == x.0;
    forall y | y in KeysOf(xe) ensures y in {x.0} + KeysOf(e) {
      var i :| 0 <= i < |xe| && xe[i].0 == y;
      if i > 0 { assert e[i - 1].0 == y; }
    }
    forall y | y in KeysOf(e) ensures y in KeysOf(xe) {
      var i :| 0 <= i < |e| && e[i].0 == y;
      assert xe[i + 1].0 == y;
    }
  }

  /** `d.get(k)`: the record stored under `k`. */
  function Lookup<K(==)>(e: Entries<K>, k: K): (r: Option<Object>)
    ensures r.Some? <==> k in KeysOf(e)
    decreases |e|
  {
    if |e| == 0 then None
    else
      assert e == [e[0]] + e[1..];
      KeysOfCons(e[0], e[1..]);
      if e[0].0 == k then Some(e[0].1) else Lookup(e[1..], k)
  }

  /** `d[k] = v`. */
  function Upsert<K(==)>(e: Entries<K>, k: K, v: Object): Entries<K>
    decreases |e|
  {
    if |e| == 0 then [(k, v)]
    else if e[0].0 == k then [(k, v)] + e[1..]
    else [e[0]] + Upsert(e[1..], k, v)
  }

  /** Assigning to a key adds it to the keys. */
  lemma {:induction false} UpsertKeys<K>(e: Entries<K>, k: K, v: Object)
    ensures KeysOf(Upsert(e, k, v)) == KeysOf(e) + {k}
    decreases |e|
  {
    if |e| == 0 {
      KeysOfCons((k, v), e);
    } else {
      assert e == [e[0]] + e[1..];
      KeysOfCons(e[0], e[1..]);
      if e[0].0 == k {
        KeysOfCons((k, v), e[1..]);
      } else {
        UpsertKeys(e[1..], k, v);
        KeysOfCons(e[0], Upsert(e[1..], k, v));
      }
    }
  }

  /** An existing key keeps its place, and a new key goes at the end. */
  lemma {:induction false} UpsertPlace<K>(e: Entries<K>, k: K, v: Object)
    ensures k !in KeysOf(e) ==> Upsert(e, k, v) == e + [(k, v)]
    ensures k in KeysOf(e) ==> |Upsert(e, k, v)| == |e|
    decreases |e|
  {
    if |e| > 0 {
      assert e == [e[0]] + e[1..];
      KeysOfCons(e[0], e[1..]);
      if e[0].0 != k {
        UpsertPlace(e[1..], k, v);
      }
    }
  }

  /** Assigning to a key gives it the new record and leaves every other key's record
      alone. */
  lemma {:induction false} UpsertLookup<K>(e: Entries<K>, k: K, v: Object)
    ensures Lookup(Upsert(e, k, v), k) == Some(v)
    ensures forall k' :: k' != k ==> Lookup(Upsert(e, k, v), k') == Lookup(e, k')
    decreases |e|
  {
    if |e| > 0 && e[0].0 != k {
      var rest := Upsert(e[1..], k, v);
      UpsertLookup(e[1..], k, v);
      assert ([e[0]] + rest)[1..] == rest;
    }
  }

  /** A dict never holds a key twice, and assigning to it keeps it that way. */
  lemma {:induction false} UpsertKeepsKeysDistinct<K>(e: Entries<K>, k: K, v: Object)
    requires DistinctKeys(e)
    ensures DistinctKeys(Upsert(e, k, v))
    decreases |e|
  {
    if |e| > 0 && e[0].0 != k {
      var rest := Upsert(e[1..], k, v);
      UpsertKeepsKeysDistinct(e[1..], k, v);
      UpsertKeys(e[1..], k, v);
      KeysOfCons(e[0], e[1..]);
      assert e == [e[0]] + e[1..];
      assert e[0].0 !in KeysOf(e[1..]);
      var r := [e[0]] + rest;
      forall i, j | 0 <= i < j < |r| ensures r[i].0 != r[j].0 {
        if i == 0 {
          assert r[j] == rest[j - 1];
          assert r[j].0 in KeysOf(rest);
        } else {
          assert r[i] == rest[i - 1] && r[j] == rest[j - 1];
        }
      }
    } else if |e| > 0 {
      var r := Upsert(e, k, v);
      assert r == [(k, v)] + e[1..];
      forall i, j | 0 <= i < j < |r| ensures r[i].0 != r[j].0 {
        assert r[j] == e[j];
        if i > 0 {
          assert r[i] == e[i];
        }
      }
    }
  }

  // ---------------------------------------------------------------------------
  // The `members` flag
  // ---------------------------------------------------------------------------

  /** `{"true": True, "false": False}.get(value, None)`: the tri-state membership flag.
      A list or object cannot be hashed, so the lookup raises (`None` here). */
  function MembersFlag(v: Value): (r: Option<Value>)
    ensures r == Some(Bool(true)) <==> v == Str("true")
    ensures r == Some(Bool(false)) <==> v == Str("false")
    ensures r.None? <==> v.Composite?
    ensures r.Some? ==> r.value.Null? || r.value.Bool?
  {
    match v
    case Str(s) => if s == "true" then Some(Bool(true)) else if s == "false" then Some(Bool(false)) else Some(Null)
    case Composite(_) => None
    case _ => Some(Null)
  }

  // ---------------------------------------------------------------------------
  // Saving: sort `invalid` ascending and `items` by each record's `id` field
  // ---------------------------------------------------------------------------

  predicate HasIntId(rec: Object) { "id" in rec && rec["id"].Int? }

  function IdKey<K>(entry: (K, Object)): int
  {
    if HasIntId(entry.1) then entry.1["id"].n else 0
  }

  /** Every record has an integer `id`, checked entry by entry. */
  predicate AllIntIds<K>(e: Entries<K>)
    decreases |e|
  {
    |e| == 0 || (HasIntId(e[0].1) && AllIntIds(e[1..]))
  }

  lemma {:induction false} AllIntIdsMeans<K>(e: Entries<K>)
    ensures AllIntIds(e) <==> forall i :: 0 <= i < |e| ==> HasIntId(e[i].1)
    decreases |e|
  {
    if |e| > 0 {
      AllIntIdsMeans(e[1..]);
      assert forall i :: 1 <= i < |e| ==> e[i] == e[1..][i - 1];
    }
  }

  /** `dict(sorted(items.items(), key=lambda i: i[1]["id"]))`. A record without an integer
      `id` makes the sort raise (`None`). */
  function SortItemsById<K>(e: Entries<K>): Option<Entries<K>>
  {
    if AllIntIds(e) then Some(SortBy(e, IdKey)) else None
  }

  /** What one save writes: the sorted records, the sorted invalid list and the save time. */
  datatype Snapshot<K> = Snapshot(items: Entries<K>, invalid: seq<int>, updatedAt: int)

  /** The document a save writes, or `None` when sorting the records raises. */
  function SaveSorted<K>(items: Entries<K>, invalid: seq<int>, now: int): Option<Snapshot<K>>
  {
    match SortItemsById(items)
    case None => None
    case Some(sorted) => Some(Snapshot(sorted, SortInts(invalid), now))
  }

  /** A save raises exactly when some record lacks an integer `id`; otherwise it is stamped
      with the save time. */
  lemma SaveFailsIffIdMissing<K>(items: Entries<K>, invalid: seq<int>, now: int)
    ensures SaveSorted(items, invalid, now).None? <==> exists i :: 0 <= i < |items| && !HasIntId(items[i].1)
    ensures SaveSorted(items, invalid, now).Some? ==> SaveSorted(items, invalid, now).value.updatedAt == now
  {
    AllIntIdsMeans(items);
  }

  /** A save keeps the same keys and the same records, only rearranged, and the same invalid
      identifiers with the same multiplicities; after it, both are in order. */
  lemma SaveKeepsContents<K>(items: Entries<K>, invalid: seq<int>, now: int)
    requires SaveSorted(items, invalid, now).Some?
    ensures var snap := SaveSorted(items, invalid, now).value;
      && KeysOf(snap.items) == KeysOf(items)
      && multiset(snap.items) == multiset(items)
      && multiset(snap.invalid) == multiset(invalid)
      && SortedBy(snap.invalid, Identity)
      && SortedBy(snap.items, IdKey)
  {
    var snap := SaveSorted(items, invalid, now).value;
    SortByCorrect(items, IdKey);
    SortIntsCorrect(invalid);
    forall x | x in KeysOf(snap.items) ensures x in KeysOf(items) {
      var i :| 0 <= i < |snap.items| && snap.items[i].0 == x;
      assert snap.items[i] in multiset(items);
      var j :| 0 <= j < |items| && items[j] == snap.items[i];
    }
    forall x | x in KeysOf(items) ensures x in KeysOf(snap.items) {
      var i :| 0 <= i < |items| && items[i].0 == x;
      assert items[i] in multiset(snap.items);
      var j :| 0 <= j < |snap.items| && snap.items[j] == items[i];
    }
  }

  /** Saving twice in a row writes the same document the second time (up to its time stamp). */
  lemma SaveIsIdempotent<K>(items: Entries<K>, invalid: seq<int>, now: int, later: int)
    requires SaveSorted(items, invalid, now).Some?
    ensures var snap := SaveSorted(items, invalid, now).value;
      SaveSorted(snap.items, snap.invalid, later) == Some(snap.(updatedAt := later))
  {
    var snap := SaveSorted(items, invalid, now).value;
    SortByCorrect(items, IdKey);
    SortIntsCorrect(invalid);
    AllIntIdsMeans(items);
    forall i | 0 <= i < |snap.items| ensures HasIntId(snap.items[i].1) {
      assert snap.items[i] in multiset(items);
    }
    AllIntIdsMeans(snap.items);
    SortSortedIsIdentity(snap.items, IdKey);
    SortSortedIsIdentity(snap.invalid, Identity);
  }
}
