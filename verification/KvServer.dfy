/**
 One key-value server: a set-associative cache with second-chance eviction in front of a backing store.
 A null key or value is modelled as the empty string; the source treats the two alike.
 */
module KvServer {
  import opened Basics

  type Key = string
  type Value = string

  datatype Error = InvalidKey | InvalidValue | OversizedKey | OversizedValue | NoSuchKey

  datatype Result<+T> = Ok(value: T) | Err(error: Error)

  const MAX_KEY_SIZE := 256
  const MAX_VAL_SIZE := 256 * 1024

  function Lookup(m: map<Key, Value>, k: Key): Option<Value> {
    if k in m then Some(m[k]) else None
  }

  /** The test a server applies before a put, and the one a replica applies before it votes. */
  function ValidateKeyValue(key: Key, value: Value): Option<Error> {
    if key == "" then Some(InvalidKey)
    else if value == "" then Some(InvalidValue)
    else if |key| > MAX_KEY_SIZE then Some(OversizedKey)
    else if |value| > MAX_VAL_SIZE then Some(OversizedValue)
    else None
  }

  // ---------- One cache set ----------

  datatype CacheEntry = CacheEntry(key: Key, value: Value, referenced: bool)

  /** Entries in eviction order: the front is looked at first. */
  type CacheSet = seq<CacheEntry>

  ghost predicate UniqueKeys(s: CacheSet) {
    forall i, j :: 0 <= i < j < |s| ==> s[i].key != s[j].key
  }

  ghost predicate Mentions(s: CacheSet, k: Key) {
    exists i :: 0 <= i < |s| && s[i].key == k
  }

  /** The value that a set holds for a key. */
  ghost function Holding(s: CacheSet, k: Key): (r: Option<Value>)
    ensures r.Some? <==> Mentions(s, k)
  {
    if Mentions(s, k) then (var i :| 0 <= i < |s| && s[i].key == k; Some(s[i].value)) else None
  }

  lemma HoldingAt(s: CacheSet, i: int)
    requires UniqueKeys(s) && 0 <= i < |s|
    ensures Holding(s, s[i].key) == Some(s[i].value)
  {}

  /** Two sets that pair the same keys with the same values hold the same, whatever their order and bits. */
  lemma SameHolding(s: CacheSet, r: CacheSet, k: Key)
    requires UniqueKeys(s) && UniqueKeys(r)
    requires forall i | 0 <= i < |s| && s[i].key == k :: PairIn(r, k, s[i].value)
    requires forall i | 0 <= i < |r| && r[i].key == k :: PairIn(s, k, r[i].value)
    ensures Holding(s, k) == Holding(r, k)
  {
    if i :| 0 <= i < |s| && s[i].key == k {
      var j :| 0 <= j < |r| && r[j].key == k && r[j].value == s[i].value;
      HoldingAt(s, i);
      HoldingAt(r, j);
    }
  }

  ghost predicate PairIn(s: CacheSet, k: Key, v: Value) {
    exists i :: 0 <= i < |s| && s[i].key == k && s[i].value == v
  }

  /** The set without its `i`-th entry. */
  function Without(s: CacheSet, i: int): CacheSet
    requires 0 <= i < |s|
  {
    s[..i] + s[i + 1..]
  }

  lemma WithoutHolding(s: CacheSet, i: int)
    requires UniqueKeys(s) && 0 <= i < |s|
    ensures UniqueKeys(Without(s, i)) && !Mentions(Without(s, i), s[i].key)
    ensures forall k :: Holding(Without(s, i), k) == if k == s[i].key then None else Holding(s, k)
  {
    var r := Without(s, i);
    assert forall j :: 0 <= j < |r| ==> r[j] == if j < i then s[j] else s[j + 1];
    forall k | k != s[i].key ensures Holding(r, k) == Holding(s, k) {
      forall j | 0 <= j < |s| && s[j].key == k ensures PairIn(r, k, s[j].value) {
        assert r[if j < i then j else j - 1] == s[j];
      }
      SameHolding(s, r, k);
    }
  }

  lemma AddedHolding(s: CacheSet, e: CacheEntry)
    requires UniqueKeys(s) && !Mentions(s, e.key)
    ensures UniqueKeys(s + [e])
    ensures forall k :: Holding(s + [e], k) == if k == e.key then Some(e.value) else Holding(s, k)
  {
    var r := s + [e];
    assert UniqueKeys(r) && r[|s|] == e;
    HoldingAt(r, |s|);
    forall k | k != e.key ensures Holding(r, k) == Holding(s, k) {
      forall j | 0 <= j < |s| && s[j].key == k ensures PairIn(r, k, s[j].value) {
        assert r[j] == s[j];
      }
      SameHolding(s, r, k);
    }
  }

  lemma ReplacedHolding(s: CacheSet, i: int, e: CacheEntry)
    requires UniqueKeys(s) && 0 <= i < |s| && e.key == s[i].key
    ensures UniqueKeys(s[i := e])
    ensures forall k :: Holding(s[i := e], k) == if k == e.key then Some(e.value) else Holding(s, k)
  {
    var r := s[i := e];
    HoldingAt(r, i);
    forall k | k != e.key ensures Holding(r, k) == Holding(s, k) {
      forall j | 0 <= j < |s| && s[j].key == k ensures PairIn(r, k, s[j].value) {
        assert r[j] == s[j];
      }
      SameHolding(s, r, k);
    }
  }

  // ---------- Second chance ----------

  /** The entry that second chance evicts: the first one not referenced, or the first one if all are. */
  ghost predicate IsVictim(s: CacheSet, k: int) {
    && 0 <= k < |s|
    && if s[k].referenced then k == 0 && forall i :: 0 <= i < |s| ==> s[i].referenced
       else forall i :: 0 <= i < k ==> s[i].referenced
  }

  /** `r` is `s` rotated by `k`, with the reference bits of the rotated entries cleared. */
  ghost predicate Rotated(s: CacheSet, r: CacheSet, k: int) {
    && 0 <= k <= |s| && |r| == |s|
    && (forall i :: 0 <= i < k ==> s[i].referenced)
    && forall j :: 0 <= j < |s| ==>
         r[j] == if j < |s| - k then s[j + k] else s[j + k - |s|].(referenced := false)
  }

  /**
   * What remains of a set after the eviction of entry `k`: the entries after it, then those before it, which used up
   * their second chance; all bits are cleared if every entry was referenced.
   */
  ghost predicate Evicted(s: CacheSet, r: CacheSet, k: int) {
    && 0 <= k < |s| && |r| == |s| - 1
    && forall j :: 0 <= j < |r| ==>
         var i := Wrap(j + k + 1, |s|);
         r[j] == s[i].(referenced := i > k && !s[k].referenced && s[i].referenced)
  }

  /** A hit moves to the back with its bit set; without one nothing moves. */
  ghost predicate Touched(s: CacheSet, r: CacheSet, key: Key) {
    if Mentions(s, key) then
      exists i :: 0 <= i < |s| && s[i].key == key && r == Without(s, i) + [s[i].(referenced := true)]
    else r == s
  }

  ghost predicate Dropped(s: CacheSet, r: CacheSet, key: Key) {
    if Mentions(s, key) then exists i :: 0 <= i < |s| && s[i].key == key && r == Without(s, i) else r == s
  }

  /** A known key keeps its place; a new one goes to the back, after an eviction if the set is full. */
  ghost predicate Stored(s: CacheSet, r: CacheSet, key: Key, value: Value, capacity: nat) {
    var e := CacheEntry(key, value, true);
    if Mentions(s, key) then exists i :: 0 <= i < |s| && s[i].key == key && r == s[i := e]
    else if |s| < capacity then r == s + [e]
    else exists left, v :: IsVictim(s, v) && Evicted(s, left, v) && r == left + [e]
  }

  function Wrap(i: int, n: int): int {
    if i < n then i else i - n
  }

  lemma EvictedHolding(s: CacheSet, r: CacheSet, v: int)
    requires UniqueKeys(s) && Evicted(s, r, v)
    ensures UniqueKeys(r)
    ensures forall k :: Holding(r, k) == if k == s[v].key then None else Holding(s, k)
  {
    var n := |s|;
    forall j | 0 <= j < |r| ensures r[j].key != s[v].key {
      assert Wrap(j + v + 1, n) != v;
    }
    forall k | k != s[v].key ensures Holding(r, k) == Holding(s, k) {
      forall i | 0 <= i < n && s[i].key == k ensures PairIn(r, k, s[i].value) {
        var j := if i > v then i - v - 1 else i - v - 1 + n;
        assert Wrap(j + v + 1, n) == i && r[j].key == k;
      }
      SameHolding(s, r, k);
    }
  }

  /** A hit survives the next eviction, whatever the other entries are, if the set has room for two. */
  lemma HitSurvives(s: CacheSet, r: CacheSet, key: Key, v: int)
    requires UniqueKeys(s) && |s| >= 2 && Mentions(s, key) && Touched(s, r, key) && IsVictim(r, v)
    ensures r[v].key != key
  {
    var i :| 0 <= i < |s| && s[i].key == key && r == Without(s, i) + [s[i].(referenced := true)];
    WithoutHolding(s, i);
    assert v < |r| - 1 ==> Without(s, i)[v] == r[v];
  }

  /** So does a new entry. */
  lemma NewSurvives(s: CacheSet, r: CacheSet, key: Key, value: Value, capacity: nat, v: int)
    requires UniqueKeys(s) && !Mentions(s, key) && Stored(s, r, key, value, capacity) && |r| >= 2 && IsVictim(r, v)
    ensures r[v].key != key
  {
    if |s| >= capacity {
      var left, u :| IsVictim(s, u) && Evicted(s, left, u) && r == left + [CacheEntry(key, value, true)];
      EvictedHolding(s, left, u);
      assert !Mentions(left, key);
      assert v < |left| ==> left[v] == r[v];
    }
  }

  /** An entry whose value was replaced survives as long as there is one that was not referenced. */
  lemma ReplacedSurvives(s: CacheSet, r: CacheSet, key: Key, value: Value, capacity: nat, v: int)
    requires UniqueKeys(s) && Mentions(s, key) && Stored(s, r, key, value, capacity) && IsVictim(r, v)
    requires exists i :: 0 <= i < |r| && !r[i].referenced
    ensures r[v].key != key
  {
    var i :| 0 <= i < |s| && s[i].key == key && r == s[i := CacheEntry(key, value, true)];
    assert forall j :: 0 <= j < |s| && j != i ==> r[j].key != key;
  }

  class KVCache {
    const numSets: nat
    const maxElemsPerSet: nat
    const indexOf: Key -> nat
    var sets: seq<CacheSet>

    /** Every entry is in the set of its key, keys are unique, no set exceeds its capacity. */
    ghost predicate Valid()
      reads this
    {
      && |sets| == numSets && numSets >= 1 && maxElemsPerSet >= 1
      && (forall k :: indexOf(k) < numSets)
      && forall i :: 0 <= i < |sets| ==> ValidSet(i, sets[i])
    }

    ghost predicate ValidSet(i: int, s: CacheSet) {
      && |s| <= maxElemsPerSet && UniqueKeys(s)
      && forall k :: Mentions(s, k) ==> indexOf(k) == i && k != ""
    }

    /** The cached value of a key. */
    ghost function Cached(k: Key): Option<Value>
      reads this
      requires Valid()
    {
      Holding(sets[indexOf(k)], k)
    }

    constructor (numSets: nat, maxElemsPerSet: nat, indexOf: Key -> nat)
      requires numSets >= 1 && maxElemsPerSet >= 1 && forall k :: indexOf(k) < numSets
      ensures this.numSets == numSets && this.maxElemsPerSet == maxElemsPerSet
      ensures Valid() && forall k :: Cached(k) == None
    {
      this.numSets, this.maxElemsPerSet, this.indexOf := numSets, maxElemsPerSet, indexOf;
      sets := seq(numSets, _ => []);
    }

    method Find(s: CacheSet, key: Key) returns (i: int)
      ensures -1 <= i < |s|
      ensures i >= 0 ==> s[i].key == key
      ensures i < 0 ==> !Mentions(s, key)
    {
      i := 0;
      while i < |s|
        invariant 0 <= i <= |s|
        invariant forall j :: 0 <= j < i ==> s[j].key != key
      {
        if s[i].key == key {
          return;
        }
        i := i + 1;
      }
      i := -1;
    }

    /** A hit is marked as referenced and moved to the back; what the cache holds does not change. */
    method Get(key: Key) returns (r: Option<Value>)
      requires Valid()
      modifies this
      ensures Valid()
      ensures r == if key == "" then None else old(Cached(key))
      ensures forall k :: Cached(k) == old(Cached(k))
      ensures key == "" ==> sets == old(sets)
      ensures key != "" ==>
                var n := indexOf(key);
                sets == old(sets)[n := sets[n]] && Touched(old(sets)[n], sets[n], key)
    {
      if key == "" {
        return None;
      }
      var n := indexOf(key);
      var s := sets[n];
      var i := Find(s, key);
      if i < 0 {
        return None;
      }
      var e := s[i].(referenced := true);
      WithoutHolding(s, i);
      AddedHolding(Without(s, i), e);
      HoldingAt(s, i);
      KeepsSet(n, s, Without(s, i) + [e], key);
      hide Holding;
      sets := sets[n := Without(s, i) + [e]];
      return Some(e.value);
    }

    /** Afterwards the key holds the value; at most one other key lost its entry, and only from a full set. */
    method Put(key: Key, value: Value) returns (ghost gone: Key)
      requires Valid()
      modifies this
      ensures Valid()
      ensures key == "" || value == "" ==> sets == old(sets)
      ensures key != "" && value != "" ==> Cached(key) == Some(value)
      ensures forall k :: k != key && k != gone ==> Cached(k) == old(Cached(k))
      ensures forall k :: k != key ==> Cached(k) == old(Cached(k)) || Cached(k) == None
      ensures key != "" && value != "" ==>
                var n := indexOf(key);
                sets == old(sets)[n := sets[n]] && Stored(old(sets)[n], sets[n], key, value, maxElemsPerSet)
    {
      gone := key;
      if key == "" || value == "" {
        return;
      }
      var n := indexOf(key);
      var s := sets[n];
      var i := Find(s, key);
      var e := CacheEntry(key, value, true);
      if i >= 0 {
        ReplacedHolding(s, i, e);
        KeepsSet(n, s, s[i := e], key);
        sets := sets[n := s[i := e]];
      } else {
        if |s| == maxElemsPerSet {
          ghost var v;
          s, v := Evict(s);
          gone := sets[n][v].key;
          EvictedHolding(sets[n], s, v);
        }
        AddedHolding(s, e);
        KeepsSet(n, sets[n], s + [e], key);
        sets := sets[n := s + [e]];
      }
    }

    /** A set that mentions no key other than those of a valid set and one of its own is valid. */
    lemma KeepsSet(n: int, s: CacheSet, r: CacheSet, key: Key)
      requires ValidSet(n, s) && |r| <= maxElemsPerSet && UniqueKeys(r) && indexOf(key) == n && key != ""
      requires forall k :: k != key && Holding(r, k).Some? ==> Holding(s, k).Some?
      ensures ValidSet(n, r)
    {
      forall k | Mentions(r, k) ensures indexOf(k) == n && k != "" {
        assert Holding(r, k).Some?;
        assert k == key || Holding(s, k).Some?;
      }
    }

    /** The bounded loop takes entries from the front, gives referenced ones a second chance and drops one. */
    method Evict(s: CacheSet) returns (r: CacheSet, ghost v: int)
      requires |s| == maxElemsPerSet && s != []
      ensures IsVictim(s, v) && Evicted(s, r, v)
    {
      hide Evicted;
      hide IsVictim;
      var i := 0;
      r := s;
      while i < maxElemsPerSet + 1
        invariant i <= |s| && Rotated(s, r, i)
      {
        RotateStep(s, r, i);
        var e := r[0];
        r := r[1..];
        if e.referenced {
          r := r + [e.(referenced := false)];
        } else {
          v := Wrap(i, |s|);
          return;
        }
        i := i + 1;
      }
      assert false;
    }

    lemma RotateStep(s: CacheSet, r: CacheSet, i: int)
      requires s != [] && Rotated(s, r, i)
      ensures r[0].referenced ==> i < |s| && Rotated(s, r[1..] + [r[0].(referenced := false)], i + 1)
      ensures !r[0].referenced ==> IsVictim(s, Wrap(i, |s|)) && Evicted(s, r[1..], Wrap(i, |s|))
    {}

    /** Removes the entry of a key, if there is one. */
    method Del(key: Key)
      requires Valid()
      modifies this
      ensures Valid()
      ensures forall k :: Cached(k) == if k == key then None else old(Cached(k))
      ensures key == "" ==> sets == old(sets)
      ensures key != "" ==>
                var n := indexOf(key);
                sets == old(sets)[n := sets[n]] && Dropped(old(sets)[n], sets[n], key)
    {
      if key == "" {
        return;
      }
      var n := indexOf(key);
      var s := sets[n];
      var i := Find(s, key);
      if i >= 0 {
        WithoutHolding(s, i);
        KeepsSet(n, s, Without(s, i), key);
        sets := sets[n := Without(s, i)];
      }
    }
  }

  /** The server: every put and delete goes to the cache and to the store. */
  class KVServer {
    const dataCache: KVCache
    var dataStore: map<Key, Value>

    /** What is cached agrees with the store. */
    ghost predicate Valid()
      reads this, dataCache
    {
      && dataCache.Valid()
      && (forall k :: dataCache.Cached(k).Some? ==> dataCache.Cached(k) == Lookup(dataStore, k))
      && "" !in dataStore
      && (forall k :: k in dataStore ==> dataStore[k] != "")
    }

    constructor (numSets: nat, maxElemsPerSet: nat, indexOf: Key -> nat)
      requires numSets >= 1 && maxElemsPerSet >= 1 && forall k :: indexOf(k) < numSets
      ensures Valid() && fresh(dataCache) && dataStore == map[]
    {
      dataCache := new KVCache(numSets, maxElemsPerSet, indexOf);
      dataStore := map[];
    }

    method Put(key: Key, value: Value) returns (r: Result<()>)
      requires Valid()
      modifies this, dataCache
      ensures Valid()
      ensures match ValidateKeyValue(key, value)
              case Some(e) => r == Err(e) && dataStore == old(dataStore)
              case None => r == Ok(()) && dataStore == old(dataStore)[key := value]
    {
      if key == "" {
        return Err(InvalidKey);
      } else if value == "" {
        return Err(InvalidValue);
      } else if |key| > MAX_KEY_SIZE {
        return Err(OversizedKey);
      } else if |value| > MAX_VAL_SIZE {
        return Err(OversizedValue);
      }
      var _ := dataCache.Put(key, value);
      dataStore := dataStore[key := value];
      return Ok(());
    }

    /** Answers as a plain map would: an empty key has no answer, a missing key is an error. */
    method Get(key: Key) returns (r: Result<Option<Value>>)
      requires Valid()
      modifies this, dataCache
      ensures Valid() && dataStore == old(dataStore)
      ensures r == if key == "" then Ok(None)
                   else if key in dataStore then Ok(Some(dataStore[key])) else Err(NoSuchKey)
    {
      if key == "" {
        return Ok(None);
      }
      var value := dataCache.Get(key);
      if value.Some? {
        return Ok(value);
      }
      if key !in dataStore {
        return Err(NoSuchKey);
      }
      var _ := dataCache.Put(key, dataStore[key]);
      return Ok(Some(dataStore[key]));
    }

    method Del(key: Key) returns (r: Result<()>)
      requires Valid()
      modifies this, dataCache
      ensures Valid()
      ensures dataStore == old(dataStore) - {key}
      ensures r == if key == "" || key in old(dataStore) then Ok(()) else Err(NoSuchKey)
    {
      if key == "" {
        return Ok(());
      }
      if key !in dataStore {
        return Err(NoSuchKey);
      }
      dataStore := dataStore - {key};
      dataCache.Del(key);
      return Ok(());
    }
  }
}
