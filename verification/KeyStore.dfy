/** The store of trusted public keys (libavproto/src/avkernel.cpp). */
module KeyStore {
  import opened Std
  import opened Cipher

  /** A public key is known by its modulus; the exponent is always 65537. */
  type Modulus = Bytes

  datatype PubKey = PubKey(key: Modulus, validUntil: int)

  /** `trusted_pubkey`: the keys recorded for each printed address. */
  type Store = map<string, seq<PubKey>>

  ghost predicate Sorted(keys: seq<PubKey>) {
    forall i, j :: 0 <= i < j < |keys| ==> keys[i].validUntil >= keys[j].validUntil
  }

  /** Some arrangement by descending expiry; `std::sort` does not promise which. */
  ghost predicate IsSorting(before: seq<PubKey>, after: seq<PubKey>) {
    Sorted(after) && multiset(after) == multiset(before)
  }

  /** Every entry has a key and its keys are in order of descending expiry. */
  ghost predicate StoreOk(store: Store) {
    forall a :: a in store ==> store[a] != [] && Sorted(store[a])
  }

  /** `find_RSA_pubkey` */
  function Find(store: Store, address: string): Option<Modulus> {
    if address in store && store[address] != [] then Some(store[address][0].key) else None
  }

  predicate Expired(k: PubKey, now: int) {
    k.validUntil < now
  }

  /** The key found is one of the latest to expire, hence unexpired if any recorded key is. */
  lemma FindsLatest(store: Store, address: string, now: int)
    requires StoreOk(store)
    ensures Find(store, address).Some? <==> address in store
    ensures address in store ==>
              exists k :: k in store[address] && Find(store, address) == Some(k.key)
                && (forall x :: x in store[address] ==> x.validUntil <= k.validUntil)
                && (Expired(k, now) ==> forall x :: x in store[address] ==> Expired(x, now))
  {
    if address in store {
      var keys := store[address];
      var k := keys[0];
      assert k in keys && Find(store, address) == Some(k.key);
      forall x | x in keys
        ensures x.validUntil <= k.validUntil
      {
        var i :| 0 <= i < |keys| && keys[i] == x;
      }
    }
  }

  /** The keys recorded for an address, none if it has no entry. */
  function KeysOf(store: Store, address: string): seq<PubKey> {
    if address in store then store[address] else []
  }

  // ----- Purging -----

  /** The inner loop: everything from the first expired key on is erased. */
  function Cut(keys: seq<PubKey>, now: int): (r: seq<PubKey>)
    ensures r <= keys
    ensures r == keys <==> forall k :: k in keys ==> !Expired(k, now)
    ensures forall k :: k in r ==> !Expired(k, now)
  {
    if keys == [] then []
    else if Expired(keys[0], now) then []
    else [keys[0]] + Cut(keys[1..], now)
  }

  /** On a sorted entry, cutting off the tail is the same as keeping just the unexpired keys. */
  lemma {:induction false} CutKeepsUnexpired(keys: seq<PubKey>, now: int)
    requires Sorted(keys)
    ensures Cut(keys, now) == Filter(keys, k => !Expired(k, now))
    decreases |keys|
  {
    if keys != [] {
      var rest := keys[1..];
      assert forall i :: 0 <= i < |rest| ==> rest[i] == keys[i + 1];
      CutKeepsUnexpired(rest, now);
      if Expired(keys[0], now) {
        forall k | k in rest
          ensures Expired(k, now)
        {
          var i :| 0 <= i < |rest| && rest[i] == k;
        }
        HeadIsIn(Filter(rest, k => !Expired(k, now)));
      }
    }
  }

  /** One entry as the loop leaves it: cut, or gone if nothing is left. */
  function PurgeEntry(store: Store, a: string, now: int): (r: Store)
    ensures forall x {:trigger KeysOf(r, x)} ::
              KeysOf(r, x) == if x == a then Cut(KeysOf(store, a), now) else KeysOf(store, x)
  {
    var keys := Cut(KeysOf(store, a), now);
    if keys == [] then store - {a} else store[a := keys]
  }

  /** Every entry along `order` visited once. */
  function PurgeEach(store: Store, order: seq<string>, now: int): Store {
    if order == [] then store else PurgeEach(PurgeEntry(store, order[0], now), order[1..], now)
  }

  /** What the purge is for: only unexpired keys stay, and only entries that still have one. */
  function Purged(store: Store, now: int): Store {
    map a | a in store && Cut(store[a], now) != [] :: Cut(store[a], now)
  }

  predicate Dead(store: Store, a: string, now: int) {
    Cut(KeysOf(store, a), now) == []
  }

  /** The entry has keys and none has expired. */
  predicate Fresh(store: Store, a: string, now: int) {
    KeysOf(store, a) != [] && Cut(KeysOf(store, a), now) == KeysOf(store, a)
  }

  /** How the purge loop ends, and the store as it leaves it: at the end of the map, or past it. */
  datatype Purging = Ended(store: Store) | Overran(store: Store)

  /**
   * `purge_RSA_pubkey` along the map's order. After `erase(iter++)` the loop's own `++iter` passes
   * over the entry that follows, or steps past the end of the map if none follows.
   */
  function PurgeAlong(store: Store, order: seq<string>, now: int): Purging
    decreases |order|
  {
    if order == [] then Ended(store)
    else
      var store' := PurgeEntry(store, order[0], now);
      if !Dead(store, order[0], now) then PurgeAlong(store', order[1..], now)
      else if |order| == 1 then Overran(store')
      else PurgeAlong(store', order[2..], now)
  }

  /** How many dead entries in a row end the map's order. */
  function DeadTail(store: Store, order: seq<string>, now: int): (n: nat)
    ensures n <= |order|
  {
    if order == [] then 0
    else
      var n := DeadTail(store, order[1..], now);
      if n == |order| - 1 && Dead(store, order[0], now) then |order| else n
  }

  /** What the name says: the last `n` entries are dead, and the one before them is not. */
  lemma {:induction false} DeadTailEnds(store: Store, order: seq<string>, now: int)
    ensures var n := DeadTail(store, order, now);
            && (forall j :: |order| - n <= j < |order| ==> Dead(store, order[j], now))
            && (n < |order| ==> !Dead(store, order[|order| - n - 1], now))
    decreases |order|
  {
    if order != [] {
      DeadTailEnds(store, order[1..], now);
      assert forall j :: 1 <= j < |order| ==> order[j] == order[1..][j - 1];
    }
  }

  /** Dead is an entry of which every key has expired. */
  lemma DeadExactly(store: Store, a: string, now: int)
    requires StoreOk(store)
    ensures Dead(store, a, now) <==> forall k :: k in KeysOf(store, a) ==> k.validUntil < now
  {
    var keys := KeysOf(store, a);
    CutKeepsUnexpired(keys, now);
    if forall k :: k in keys ==> k.validUntil < now {
      HeadIsIn(Filter(keys, k => !Expired(k, now)));
    }
  }

  lemma {:induction false} DeadTailFrame(store: Store, store': Store, order: seq<string>, now: int)
    requires forall a :: a in order ==> KeysOf(store', a) == KeysOf(store, a)
    ensures DeadTail(store', order, now) == DeadTail(store, order, now)
    decreases |order|
  {
    if order != [] {
      assert order[0] in order;
      DeadTailFrame(store, store', order[1..], now);
    }
  }

  /** A dead entry and the one behind it add both to the tail, or nothing. */
  lemma DeadTailTwo(store: Store, order: seq<string>, now: int)
    requires |order| > 1 && Dead(store, order[0], now)
    ensures var n, n2 := DeadTail(store, order, now), DeadTail(store, order[2..], now); n == n2 || n == n2 + 2
  {
    var rest := order[1..];
    assert rest[1..] == order[2..];
    DeadTailStep(store, order, now);
    DeadTailStep(store, rest, now);
  }

  lemma DeadTailStep(store: Store, order: seq<string>, now: int)
    requires order != []
    ensures var n := DeadTail(store, order[1..], now);
            DeadTail(store, order, now) == if n == |order| - 1 && Dead(store, order[0], now) then |order| else n
  {
  }

  /** The iterator stays inside the map exactly if an even number of dead entries ends it. */
  lemma {:induction false} StaysInsideExactly(store: Store, order: seq<string>, now: int)
    requires Distinct(order)
    ensures PurgeAlong(store, order, now).Ended? <==> DeadTail(store, order, now) % 2 == 0
    decreases |order|
  {
    if order != [] {
      var store', rest := PurgeEntry(store, order[0], now), order[1..];
      if !Dead(store, order[0], now) {
        StaysInsideExactly(store', rest, now);
        DeadTailFrame(store, store', rest, now);
      } else if |order| > 1 {
        StaysInsideExactly(store', order[2..], now);
        DeadTailFrame(store, store', order[2..], now);
        DeadTailTwo(store, order, now);
      }
    }
  }

  /** One entry, and it has expired: the iterator leaves the map. */
  lemma LoneDeadEntryOverruns(k: Modulus)
    ensures PurgeAlong(map["a@x" := [PubKey(k, 0)]], ["a@x"], 1) == Overran(map[])
  {
    var store: Store := map["a@x" := [PubKey(k, 0)]];
    assert KeysOf(store, "a@x") == [PubKey(k, 0)];
    assert store - {"a@x"} == map[];
  }

  lemma {:induction false} OthersUntouched(store: Store, order: seq<string>, now: int, a: string)
    requires a !in order
    ensures KeysOf(PurgeEach(store, order, now), a) == KeysOf(store, a)
    ensures KeysOf(PurgeAlong(store, order, now).store, a) == KeysOf(store, a)
    decreases |order|
  {
    if order != [] {
      var store' := PurgeEntry(store, order[0], now);
      OthersUntouched(store', order[1..], now, a);
      if |order| > 1 {
        OthersUntouched(store', order[2..], now, a);
      }
    }
  }

  /** Visiting every entry once is the purge that was meant. */
  lemma {:induction false} PurgeEachKeys(store: Store, order: seq<string>, now: int, a: string)
    requires Distinct(order)
    ensures KeysOf(PurgeEach(store, order, now), a) ==
            if a in order then Cut(KeysOf(store, a), now) else KeysOf(store, a)
    decreases |order|
  {
    if order != [] {
      var store' := PurgeEntry(store, order[0], now);
      PurgeEachKeys(store', order[1..], now, a);
      if a == order[0] {
        OthersUntouched(store', order[1..], now, a);
      }
    }
  }

  /** Every dead entry is followed by one from which nothing has to be purged. */
  ghost predicate Skippable(store: Store, order: seq<string>, now: int) {
    forall j :: 0 <= j < |order| && Dead(store, order[j], now) ==> j + 1 < |order| && Fresh(store, order[j + 1], now)
  }

  lemma SkippableRest(store: Store, order: seq<string>, now: int, n: nat, store': Store)
    requires n <= |order|
    requires forall a :: a in order[n..] ==> KeysOf(store', a) == KeysOf(store, a)
    ensures Skippable(store', order[n..], now) <==>
            forall j :: n <= j < |order| && Dead(store, order[j], now) ==>
              j + 1 < |order| && Fresh(store, order[j + 1], now)
  {
    var rest := order[n..];
    forall j | 0 <= j < |rest|
      ensures rest[j] == order[j + n]
      ensures Dead(store', rest[j], now) <==> Dead(store, order[j + n], now)
      ensures Fresh(store', rest[j], now) <==> Fresh(store, order[j + n], now)
    {
      assert rest[j] in rest;
    }
    if Skippable(store', rest, now) {
      forall j | n <= j < |order| && Dead(store, order[j], now)
        ensures j + 1 < |order| && Fresh(store, order[j + 1], now)
      {
        assert Dead(store', rest[j - n], now);
        assert order[j + 1] == rest[j - n + 1];
      }
    }
  }

  /**
   * The loop as written purges what it should exactly when every entry it erases is followed by an
   * entry with nothing to purge; otherwise it leaves expired keys behind or steps past the end.
   */
  lemma {:induction false} SkippingPurge(store: Store, order: seq<string>, now: int)
    requires Distinct(order) && forall a :: a in order ==> KeysOf(store, a) != []
    ensures PurgeAlong(store, order, now) == Ended(PurgeEach(store, order, now)) <==> Skippable(store, order, now)
    decreases |order|
  {
    if order != [] {
      var a, store' := order[0], PurgeEntry(store, order[0], now);
      if !Dead(store, a, now) {
        SkippingPurge(store', order[1..], now);
        SkippableRest(store, order, now, 1, store');
      } else if |order| > 1 {
        var b, rest := order[1], order[2..];
        assert order[1..][0] == b && order[1..][1..] == rest;
        assert b in order;
        if Fresh(store, b, now) {
          assert PurgeEntry(store', b, now) == store';
          SkippingPurge(store', rest, now);
          SkippableRest(store, order, now, 2, store');
        } else {
          assert !Skippable(store, order, now) by { assert Dead(store, order[0], now); }
          OthersUntouched(store', rest, now, b);
          OthersUntouched(PurgeEntry(store', b, now), rest, now, b);
        }
      } else {
        assert Dead(store, order[0], now);
      }
    }
  }

  /** Two entries, both expired: the second survives the purge. */
  lemma SecondDeadEntrySurvives(k: Modulus)
    ensures var store := map["a@x" := [PubKey(k, 0)], "b@x" := [PubKey(k, 0)]];
            PurgeAlong(store, ["a@x", "b@x"], 1) == Ended(map["b@x" := [PubKey(k, 0)]]) && Purged(store, 1) == map[]
  {
    var store: Store := map["a@x" := [PubKey(k, 0)], "b@x" := [PubKey(k, 0)]];
    var store' := PurgeEntry(store, "a@x", 1);
    assert "a@x"[0] != "b@x"[0];
    assert store' == map["b@x" := [PubKey(k, 0)]];
    assert ["a@x", "b@x"][2..] == [];
    assert PurgeAlong(store', [], 1) == Ended(store');
  }

  /** `order` lists the addresses of the store, each once. */
  ghost predicate Lists(order: seq<string>, store: Store) {
    Distinct(order) && forall a :: a in order <==> a in store
  }

  lemma EachEntryPurged(store: Store, order: seq<string>, now: int)
    requires StoreOk(store) && Lists(order, store)
    ensures PurgeEach(store, order, now) == Purged(store, now)
  {
    var each, purged := PurgeEach(store, order, now), Purged(store, now);
    NoEmptyEntries(store, order, now);
    forall a
      ensures KeysOf(each, a) == KeysOf(purged, a)
    {
      PurgeEachKeys(store, order, now, a);
    }
    SameKeysSameStore(each, purged);
  }

  /** What the purge is for, by the clock: the keys valid until `now` or later, and the entries that have one. */
  lemma PurgeByTheClock(store: Store, now: int)
    requires StoreOk(store)
    ensures forall a {:trigger store[a]} :: a in store ==>
              && KeysOf(Purged(store, now), a) == Filter(store[a], (k: PubKey) => k.validUntil >= now)
              && (a in Purged(store, now) <==> exists k :: k in store[a] && k.validUntil >= now)
    ensures forall a :: a in Purged(store, now) ==> a in store
  {
    forall a | a in store
      ensures KeysOf(Purged(store, now), a) == Filter(store[a], (k: PubKey) => k.validUntil >= now)
      ensures a in Purged(store, now) <==> exists k :: k in store[a] && k.validUntil >= now
    {
      CutKeepsUnexpired(store[a], now);
      SameFilter(store[a], k => !Expired(k, now), (k: PubKey) => k.validUntil >= now);
      HeadIsIn(Filter(store[a], (k: PubKey) => k.validUntil >= now));
    }
  }

  lemma {:induction false} SameFilter<T(!new)>(s: seq<T>, f: T -> bool, g: T -> bool)
    requires forall x :: f(x) == g(x)
    ensures Filter(s, f) == Filter(s, g)
  {
    if s != [] {
      SameFilter(s[1..], f, g);
    }
  }

  lemma SameKeysSameStore(s: Store, t: Store)
    requires forall a :: a in s ==> s[a] != []
    requires forall a :: a in t ==> t[a] != []
    requires forall a :: KeysOf(s, a) == KeysOf(t, a)
    ensures s == t
  {
    forall a
      ensures a in s <==> a in t
      ensures a in s && a in t ==> s[a] == t[a]
    {
      assert KeysOf(s, a) == KeysOf(t, a);
    }
  }

  /** Over a whole, well-formed store: purged as intended exactly under that condition. */
  lemma PurgeIsExact(store: Store, order: seq<string>, now: int)
    requires StoreOk(store) && Lists(order, store)
    ensures PurgeAlong(store, order, now) == Ended(Purged(store, now)) <==> Skippable(store, order, now)
  {
    SkippingPurge(store, order, now);
    EachEntryPurged(store, order, now);
  }

  lemma {:induction false} NoEmptyEntries(store: Store, order: seq<string>, now: int)
    requires forall a :: a in store ==> store[a] != []
    ensures forall a :: a in PurgeEach(store, order, now) ==> PurgeEach(store, order, now)[a] != []
    decreases |order|
  {
    if order != [] {
      NoEmptyEntries(PurgeEntry(store, order[0], now), order[1..], now);
    }
  }

  /** `after` holds nothing that `before` does not: entries may be gone, or lack their last keys. */
  ghost predicate Shrinks(before: Store, after: Store) {
    forall a :: a in after ==> a in before && after[a] != [] && after[a] <= before[a]
  }

  /** Even where it skips, the loop only removes keys from the back of entries, or whole entries. */
  lemma {:induction false} PurgeShrinks(store: Store, order: seq<string>, now: int)
    requires forall a :: a in store ==> store[a] != []
    ensures Shrinks(store, PurgeAlong(store, order, now).store)
    decreases |order|
  {
    if order != [] {
      var store' := PurgeEntry(store, order[0], now);
      if !Dead(store, order[0], now) {
        PurgeShrinks(store', order[1..], now);
      } else if |order| > 1 {
        PurgeShrinks(store', order[2..], now);
      }
    }
  }

  lemma ShrinkKeepsOk(before: Store, after: Store)
    requires StoreOk(before) && Shrinks(before, after)
    ensures StoreOk(after)
  {
    forall a | a in after
      ensures after[a] != [] && Sorted(after[a])
    {
      assert forall i :: 0 <= i < |after[a]| ==> after[a][i] == before[a][i];
    }
  }

  /** `std::sort` by descending expiry. */
  method Sort(before: seq<PubKey>) returns (after: seq<PubKey>)
    ensures IsSorting(before, after)
  {
    after := SortBy((k: PubKey) => -k.validUntil, before);
    assert Ascending((k: PubKey) => -k.validUntil, after);
  }

  lemma SortingKeepsElements(before: seq<PubKey>, after: seq<PubKey>)
    requires IsSorting(before, after)
    ensures forall k :: k in after <==> k in before
    ensures |after| == |before|
  {
    forall k
      ensures k in after <==> k in before
    {
      assert k in multiset(after) <==> k in multiset(before);
    }
    assert |multiset(after)| == |after| && |multiset(before)| == |before|;
  }

  /** Sorting a single key changes nothing. */
  lemma SortingOneKey(k: PubKey, after: seq<PubKey>)
    requires IsSorting([k], after)
    ensures after == [k]
  {
    SortingKeepsElements([k], after);
    assert after[0] in after;
  }
}
