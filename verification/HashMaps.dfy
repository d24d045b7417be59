/** The chained hash map of processing.js: buckets, rehashing, iterators. */
module HashMaps {
  import opened Wrappers

  datatype Pair<+K, +V> = Pair(key: K, value: V)

  /** A slot of the bucket array: undefined, or a list of pairs. */
  type Bucket<+K, +V> = Option<seq<Pair<K, V>>>

  /**
    What `virtEquals` and `virtHashCode` say of keys: two keys are equal when they are in the same class, and
    equal keys have equal hash codes.
    */
  datatype Keys<!K, !C> = Keys(class_: K -> C, hash: C -> int)

  // ----- the bucket of a key

  /** The remainder as JavaScript computes it, with the sign of the dividend. */
  function Remainder(a: int, n: int): int
    requires n > 0
  {
    if a >= 0 then a % n else -((-a) % n)
  }

  function BucketIndex(hash: int, buckets: int): (i: nat)
    requires buckets > 0
    ensures i < buckets
  {
    var index := Remainder(hash, buckets);
    if index < 0 then buckets + index else index
  }

  /** The index differs from the hash by a multiple of the number of buckets, for negative hashes as well. */
  lemma BucketIndexIsRest(hash: int, buckets: int)
    requires buckets > 0
    ensures BucketIndex(hash, buckets) == hash % buckets
  {
    if hash < 0 {
      var r := (-hash) % buckets;
      assert -hash == buckets * ((-hash) / buckets) + r;
      RestOf(hash, buckets, -((-hash) / buckets) - (if r == 0 then 0 else 1), if r == 0 then 0 else buckets - r);
    }
  }

  lemma RestOf(a: int, n: int, q: int, r: int)
    requires n > 0 && 0 <= r < n && a == n * q + r
    ensures a % n == r
  {
    var d := a / n - q;
    assert n * d == r - a % n;
    assert d > 0 ==> n * d >= n;
    assert d < 0 ==> n * d <= -n;
  }

  // ----- buckets as a representation of a map from classes to entries

  function Items<K, V>(b: Bucket<K, V>): seq<Pair<K, V>> {
    if b.Some? then b.value else []
  }

  function Flatten<K, V>(buckets: seq<Bucket<K, V>>): seq<Pair<K, V>> {
    if buckets == [] then [] else Items(buckets[0]) + Flatten(buckets[1..])
  }

  /** The entries list each class once. */
  ghost predicate Distinct<K, V, C>(keys: Keys<K, C>, es: seq<Pair<K, V>>) {
    forall i, j :: 0 <= i < j < |es| ==> keys.class_(es[i].key) != keys.class_(es[j].key)
  }

  /** The entries include one of the class. */
  ghost predicate Lists<K, V, C>(keys: Keys<K, C>, es: seq<Pair<K, V>>, c: C) {
    exists i :: 0 <= i < |es| && keys.class_(es[i].key) == c
  }

  /** The entries are those of the map, each once. */
  ghost predicate Enumerates<K, V, C>(keys: Keys<K, C>, es: seq<Pair<K, V>>, m: map<C, Pair<K, V>>) {
    && Distinct(keys, es)
    && (forall i :: 0 <= i < |es| ==> keys.class_(es[i].key) in m && m[keys.class_(es[i].key)] == es[i])
    && (forall c {:trigger Lists(keys, es, c)} :: c in m ==> Lists(keys, es, c))
  }

  /** One bucket holds exactly the entries of the map whose hash leads to it, each once. */
  ghost predicate BucketHolds<K, V, C>(
    keys: Keys<K, C>, b: nat, n: nat, items: seq<Pair<K, V>>, m: map<C, Pair<K, V>>)
    requires b < n
  {
    && Distinct(keys, items)
    && (forall i :: 0 <= i < |items| ==>
          var c := keys.class_(items[i].key);
          c in m && m[c] == items[i] && BucketIndex(keys.hash(c), n) == b)
    && (forall c {:trigger Lists(keys, items, c)} ::
          c in m && BucketIndex(keys.hash(c), n) == b ==> Lists(keys, items, c))
  }

  ghost predicate BucketOk<K, V, C>(keys: Keys<K, C>, b: nat, buckets: seq<Bucket<K, V>>, m: map<C, Pair<K, V>>)
    requires b < |buckets|
  {
    buckets[b] != Some([]) && BucketHolds(keys, b, |buckets|, Items(buckets[b]), m)
  }

  ghost predicate Holds<K, V, C>(keys: Keys<K, C>, buckets: seq<Bucket<K, V>>, m: map<C, Pair<K, V>>) {
    && (forall c :: c in m ==> keys.class_(m[c].key) == c)
    && (forall b {:trigger BucketOk(keys, b, buckets, m)} :: 0 <= b < |buckets| ==> BucketOk(keys, b, buckets, m))
  }

  lemma EmptyHolds<K, V, C>(keys: Keys<K, C>, n: nat)
    ensures Holds<K, V, C>(keys, seq(n, _ => None), map[])
  {
  }

  /** Changing one bucket and the map in step, for one class. */
  lemma ChangedHolds<K, V, C>(
    keys: Keys<K, C>, buckets: seq<Bucket<K, V>>, m: map<C, Pair<K, V>>,
    b: nat, slot: Bucket<K, V>, m': map<C, Pair<K, V>>, c: C)
    requires Holds(keys, buckets, m) && b < |buckets| && b == BucketIndex(keys.hash(c), |buckets|)
    requires m' - {c} == m - {c} && (c in m' ==> keys.class_(m'[c].key) == c)
    requires slot != Some([]) && BucketHolds(keys, b, |buckets|, Items(slot), m')
    ensures Holds(keys, buckets[b := slot], m')
  {
    var n := |buckets|;
    assert forall d :: d != c ==> (d in m <==> d in m - {c}) && (d in m' <==> d in m' - {c});
    assert forall d :: d != c && d in m ==> d in m' && m'[d] == (m' - {c})[d] == (m - {c})[d] == m[d];
    assert forall d :: d != c && d in m' ==> d in m && m'[d] == m[d];
    var r := buckets[b := slot];
    forall a | 0 <= a < n ensures BucketOk(keys, a, r, m') {
      assert BucketOk(keys, a, buckets, m);
    }
  }

  /** Adding an entry of a new class at the end of its bucket. */
  function Inserted<K, V, C>(keys: Keys<K, C>, buckets: seq<Bucket<K, V>>, e: Pair<K, V>): (r: seq<Bucket<K, V>>)
    requires buckets != []
    ensures |r| == |buckets|
  {
    var b := BucketIndex(keys.hash(keys.class_(e.key)), |buckets|);
    buckets[b := Some(Items(buckets[b]) + [e])]
  }

  lemma InsertedHolds<K, V, C>(
    keys: Keys<K, C>, buckets: seq<Bucket<K, V>>, m: map<C, Pair<K, V>>, e: Pair<K, V>)
    requires buckets != [] && Holds(keys, buckets, m) && keys.class_(e.key) !in m
    ensures Holds(keys, Inserted(keys, buckets, e), m[keys.class_(e.key) := e])
  {
    var c := keys.class_(e.key);
    var b := BucketIndex(keys.hash(c), |buckets|);
    var items, m' := Items(buckets[b]), m[c := e];
    assert BucketOk(keys, b, buckets, m);
    var items' := items + [e];
    forall d | d in m' && BucketIndex(keys.hash(d), |buckets|) == b ensures Lists(keys, items', d) {
      if d == c {
        assert keys.class_(items'[|items|].key) == c;
      } else {
        assert Lists(keys, items, d);
        var i :| 0 <= i < |items| && keys.class_(items[i].key) == d;
        assert items'[i] == items[i];
      }
    }
    assert m' - {c} == m - {c};
    ChangedHolds(keys, buckets, m, b, Some(items'), m', c);
  }

  /** Giving the entry of a class another value. */
  lemma OverwrittenHolds<K, V, C>(
    keys: Keys<K, C>, buckets: seq<Bucket<K, V>>, m: map<C, Pair<K, V>>, b: nat, i: nat, value: V)
    requires Holds(keys, buckets, m) && b < |buckets| && i < |Items(buckets[b])|
    ensures var items := Items(buckets[b]);
            var e := items[i].(value := value);
            Holds(keys, buckets[b := Some(items[i := e])], m[keys.class_(e.key) := e])
  {
    var items := Items(buckets[b]);
    var e := items[i].(value := value);
    var c := keys.class_(e.key);
    var m', items' := m[c := e], items[i := e];
    assert BucketOk(keys, b, buckets, m);
    forall d | d in m' && BucketIndex(keys.hash(d), |buckets|) == b ensures Lists(keys, items', d) {
      if d != c {
        assert Lists(keys, items, d);
        var j :| 0 <= j < |items| && keys.class_(items[j].key) == d;
        assert keys.class_(items'[j].key) == d;
      } else {
        assert keys.class_(items'[i].key) == d;
      }
    }
    assert m' - {c} == m - {c};
    ChangedHolds(keys, buckets, m, b, Some(items'), m', c);
  }

  function Without<T>(s: seq<T>, i: nat): (r: seq<T>)
    requires i < |s|
    ensures |r| == |s| - 1
    ensures forall j :: 0 <= j < |r| ==> r[j] == s[if j < i then j else j + 1]
  {
    s[..i] + s[i + 1..]
  }

  /** Removing the entry of a class; a bucket that becomes empty becomes undefined. */
  lemma RemovedHolds<K, V, C>(
    keys: Keys<K, C>, buckets: seq<Bucket<K, V>>, m: map<C, Pair<K, V>>, b: nat, i: nat)
    requires Holds(keys, buckets, m) && b < |buckets| && i < |Items(buckets[b])|
    ensures var items := Items(buckets[b]);
            Holds(keys, buckets[b := if |items| > 1 then Some(Without(items, i)) else None],
                  m - {keys.class_(items[i].key)})
  {
    var items := Items(buckets[b]);
    var c := keys.class_(items[i].key);
    var m', items' := m - {c}, Without(items, i);
    assert BucketOk(keys, b, buckets, m);
    assert Distinct(keys, items') by {
      forall j, k | 0 <= j < k < |items'| ensures keys.class_(items'[j].key) != keys.class_(items'[k].key) {
        var j', k' := if j < i then j else j + 1, if k < i then k else k + 1;
        assert items'[j] == items[j'] && items'[k] == items[k'] && j' < k';
      }
    }
    forall j | 0 <= j < |items'| ensures keys.class_(items'[j].key) != c && items'[j] in items {
      var j' := if j < i then j else j + 1;
      assert items'[j] == items[j'];
    }
    forall d | d in m' && BucketIndex(keys.hash(d), |buckets|) == b ensures Lists(keys, items', d) {
      assert Lists(keys, items, d);
      var j :| 0 <= j < |items| && keys.class_(items[j].key) == d;
      assert items'[if j < i then j else j - 1] == items[j];
    }
    assert m' - {c} == m - {c};
    ChangedHolds(keys, buckets, m, b, if |items| > 1 then Some(items') else None, m', c);
  }

  /** The buckets in order list the entries of the map, each once. */
  lemma {:induction false} FlattenEnumerates<K, V, C>(
    keys: Keys<K, C>, buckets: seq<Bucket<K, V>>, m: map<C, Pair<K, V>>)
    requires buckets != [] && Holds(keys, buckets, m)
    ensures Enumerates(keys, Flatten(buckets), m)
  {
    FlattenFrom(keys, buckets, m, 0);
    assert buckets[0..] == buckets;
  }

  lemma {:induction false} FlattenFrom<K, V, C>(
    keys: Keys<K, C>, buckets: seq<Bucket<K, V>>, m: map<C, Pair<K, V>>, from: nat)
    requires buckets != [] && Holds(keys, buckets, m) && from <= |buckets|
    ensures var es := Flatten(buckets[from..]);
            && Distinct(keys, es)
            && (forall i :: 0 <= i < |es| ==>
                  var c := keys.class_(es[i].key);
                  c in m && m[c] == es[i] && from <= BucketIndex(keys.hash(c), |buckets|))
            && (forall c {:trigger Lists(keys, es, c)} ::
                  c in m && from <= BucketIndex(keys.hash(c), |buckets|) ==> Lists(keys, es, c))
    decreases |buckets| - from
  {
    if from < |buckets| {
      FlattenFrom(keys, buckets, m, from + 1);
      assert buckets[from..][0] == buckets[from] && buckets[from..][1..] == buckets[from + 1..];
      var items, rest := Items(buckets[from]), Flatten(buckets[from + 1..]);
      assert BucketOk(keys, from, buckets, m);
      var es := items + rest;
      assert Flatten(buckets[from..]) == es;
      forall c | c in m && from <= BucketIndex(keys.hash(c), |buckets|) ensures Lists(keys, es, c) {
        if BucketIndex(keys.hash(c), |buckets|) == from {
          assert Lists(keys, items, c);
          var i :| 0 <= i < |items| && keys.class_(items[i].key) == c;
          assert es[i] == items[i];
        } else {
          assert Lists(keys, rest, c);
          var i :| 0 <= i < |rest| && keys.class_(rest[i].key) == c;
          assert es[|items| + i] == rest[i];
        }
      }
    }
  }

  // ----- rehashing

  /** The map that a list of entries of distinct classes stands for. */
  ghost function MapOf<K, V, C>(keys: Keys<K, C>, es: seq<Pair<K, V>>): map<C, Pair<K, V>> {
    if es == [] then map[]
    else MapOf(keys, es[..|es| - 1])[keys.class_(es[|es| - 1].key) := es[|es| - 1]]
  }

  lemma {:induction false} MapOfEntries<K, V, C>(keys: Keys<K, C>, es: seq<Pair<K, V>>)
    requires Distinct(keys, es)
    ensures var r := MapOf(keys, es);
            && |r| == |es|
            && (forall i :: 0 <= i < |es| ==> keys.class_(es[i].key) in r && r[keys.class_(es[i].key)] == es[i])
            && (forall c {:trigger Lists(keys, es, c)} :: c in r ==> Lists(keys, es, c))
  {
    if es != [] {
      var front, e := es[..|es| - 1], es[|es| - 1];
      MapOfEntries(keys, front);
      var r, c := MapOf(keys, front), keys.class_(e.key);
      assert !Lists(keys, front, c);
      forall d | d in r ensures Lists(keys, es, d) {
        assert Lists(keys, front, d);
        var i :| 0 <= i < |front| && keys.class_(front[i].key) == d;
        assert es[i] == front[i];
      }
      assert keys.class_(es[|front|].key) == c;
    }
  }

  lemma EnumerationIsMap<K, V, C>(keys: Keys<K, C>, es: seq<Pair<K, V>>, m: map<C, Pair<K, V>>)
    requires Enumerates(keys, es, m)
    ensures MapOf(keys, es) == m && |es| == |m|
  {
    MapOfEntries(keys, es);
    var r := MapOf(keys, es);
    forall c | c in m ensures c in r && r[c] == m[c] {
      assert Lists(keys, es, c);
    }
    forall c | c in r ensures c in m {
      assert Lists(keys, es, c);
    }
  }

  class HashMap<K, V, C(==)> {
    const keys: Keys<K, C>
    const initialCapacity: nat
    const loadFactor: real
    var buckets: seq<Bucket<K, V>>
    var count: int
    ghost var contents: map<C, Pair<K, V>>

    ghost predicate Valid()
      reads this
    {
      && 0 < initialCapacity <= |buckets|
      && Holds(keys, buckets, contents)
      && count == |contents|
    }

    ghost function CurrentLoad(): Load
      requires Valid()
      reads this
    {
      Load(|buckets|, count)
    }

    /** Unless the load factor is too small for the first entry, the entries are within it. */
    ghost predicate LoadKept()
      requires Valid()
      reads this
    {
      Kept(loadFactor, initialCapacity, CurrentLoad())
    }

    constructor (keys: Keys<K, C>, initialCapacity: nat := 16, loadFactor: real := 0.75)
      requires initialCapacity > 0
      ensures Valid() && contents == map[]
      ensures this.keys == keys && this.initialCapacity == initialCapacity && this.loadFactor == loadFactor
      ensures CurrentLoad() == Load(initialCapacity, 0) && LoadKept()
    {
      this.keys, this.initialCapacity, this.loadFactor := keys, initialCapacity, loadFactor;
      buckets := seq(initialCapacity, _ => None);
      count := 0;
      contents := map[];
    }

    function IndexOf(key: K): (i: nat)
      requires buckets != []
      reads this
      ensures i < |buckets|
    {
      BucketIndex(keys.hash(keys.class_(key)), |buckets|)
    }

    method AllEntries() returns (allEntries: seq<Pair<K, V>>)
      ensures allEntries == Flatten(buckets)
    {
      allEntries := [];
      var i := 0;
      while i < |buckets|
        invariant 0 <= i <= |buckets|
        invariant allEntries + Flatten(buckets[i..]) == Flatten(buckets)
      {
        assert buckets[i..][0] == buckets[i] && buckets[i..][1..] == buckets[i + 1..];
        ghost var rest := Flatten(buckets[i + 1..]);
        assert allEntries + (Items(buckets[i]) + rest) == (allEntries + Items(buckets[i])) + rest;
        if buckets[i].Some? {
          allEntries := allEntries + buckets[i].value;
        }
        i := i + 1;
      }
    }

    /** Puts an entry at the end of its bucket. */
    method Append(e: Pair<K, V>)
      requires buckets != []
      modifies this`buckets
      ensures buckets == Inserted(keys, old(buckets), e)
    {
      var index := IndexOf(e.key);
      if buckets[index] == None {
        buckets := buckets[index := Some([])];
      }
      buckets := buckets[index := Some(buckets[index].value + [e])];
    }

    /** Distributes the entries over fresh buckets. */
    method Refill(allEntries: seq<Pair<K, V>>, newBucketsLength: nat)
      requires newBucketsLength > 0 && Distinct(keys, allEntries)
      modifies this`buckets
      ensures |buckets| == newBucketsLength && Holds(keys, buckets, MapOf(keys, allEntries))
    {
      buckets := seq(newBucketsLength, _ => None);
      EmptyHolds<K, V, C>(keys, newBucketsLength);
      var j := 0;
      while j < |allEntries|
        invariant 0 <= j <= |allEntries| && |buckets| == newBucketsLength
        invariant Holds(keys, buckets, MapOf(keys, allEntries[..j]))
      {
        assert allEntries == allEntries[..j] + ([allEntries[j]] + allEntries[j + 1..]);
        assert allEntries[..j + 1] == allEntries[..j] + [allEntries[j]];
        NextOf(keys, allEntries, allEntries[..j], allEntries[j], allEntries[j + 1..]);
        InsertedHolds(keys, buckets, MapOf(keys, allEntries[..j]), allEntries[j]);
        Append(allEntries[j]);
        j := j + 1;
      }
      assert allEntries[..|allEntries|] == allEntries;
    }

    method EnsureLoad()
      requires Valid()
      modifies this`buckets
      ensures Valid()
      ensures |buckets| == Length(loadFactor, |old(buckets)|, count)
    {
      if count as real <= loadFactor * (|buckets| as real) {
        return;
      }
      ghost var length := Length(loadFactor, |buckets|, count);
      assert length == |buckets| * 2;
      var allEntries := AllEntries();
      FlattenEnumerates(keys, buckets, contents);
      EnumerationIsMap(keys, allEntries, contents);
      Refill(allEntries, |buckets| * 2);
    }
  
    /** Searches the bucket of a key; -1 if no entry there has an equal key. */
    method Find(key: K) returns (at: int)
      requires Valid()
      ensures -1 <= at < |Items(buckets[IndexOf(key)])|
      ensures at == -1 <==> keys.class_(key) !in contents
      ensures at >= 0 ==> Items(buckets[IndexOf(key)])[at] == contents[keys.class_(key)]
    {
      var bucket := buckets[IndexOf(key)];
      assert BucketOk(keys, IndexOf(key), buckets, contents);
      assert keys.class_(key) in contents ==> Lists(keys, Items(bucket), keys.class_(key));
      if bucket == None {
        return -1;
      }
      at := 0;
      while at < |bucket.value|
        invariant 0 <= at <= |bucket.value|
        invariant forall j :: 0 <= j < at ==> keys.class_(bucket.value[j].key) != keys.class_(key)
      {
        if keys.class_(bucket.value[at].key) == keys.class_(key) {
          return;
        }
        at := at + 1;
      }
      at := -1;
    }

    method Get(key: K) returns (r: Option<V>)
      requires Valid()
      ensures r == if keys.class_(key) in contents then Some(contents[keys.class_(key)].value) else None
    {
      var at := Find(key);
      return if at < 0 then None else Some(buckets[IndexOf(key)].value[at].value);
    }

    method ContainsKey(key: K) returns (r: bool)
      requires Valid()
      ensures r <==> keys.class_(key) in contents
    {
      var at := Find(key);
      return at >= 0;
    }

    method Size() returns (n: int)
      requires Valid()
      ensures n == |contents|
    {
      return count;
    }

    method Clear()
      requires Valid()
      modifies this
      ensures Valid() && contents == map[] && LoadKept()
      ensures CurrentLoad() == AfterOp(loadFactor, initialCapacity, old(CurrentLoad()), ClearAll)
    {
      count := 0;
      buckets := seq(initialCapacity, _ => None);
      contents := map[];
      EmptyHolds<K, V, C>(keys, initialCapacity);
    }

    /** Stores a value and returns the one it replaces; an equal key already there is kept. */
    method Put(key: K, value: V) returns (previous: Option<V>)
      requires Valid()
      modifies this
      ensures Valid()
      ensures var c := keys.class_(key);
              && previous == (if c in old(contents) then Some(old(contents)[c].value) else None)
              && contents == Stored(keys, old(contents), Pair(key, value))
              && CurrentLoad() == AfterOp(loadFactor, initialCapacity, old(CurrentLoad()),
                                          if c in old(contents) then PutAgain else PutNew)
      ensures old(LoadKept()) ==> LoadKept()
      ensures old(LoadKept()) && RoomForOne(loadFactor, initialCapacity) ==> Within(loadFactor, CurrentLoad())
    {
      ghost var before, op := CurrentLoad(), if keys.class_(key) in contents then PutAgain else PutNew;
      var at := Find(key);
      if at >= 0 {
        previous := Overwrite(key, at, value);
      } else {
        previous := None;
        AddEntry(Pair(key, value));
      }
      OpKeepsLoad(loadFactor, initialCapacity, before, op);
    }

    method Overwrite(key: K, at: nat, value: V) returns (previous: Option<V>)
      requires Valid() && keys.class_(key) in contents && at < |Items(buckets[IndexOf(key)])|
      requires Items(buckets[IndexOf(key)])[at] == contents[keys.class_(key)]
      modifies this
      ensures Valid() && previous == Some(old(contents)[keys.class_(key)].value)
      ensures contents == Stored(keys, old(contents), Pair(key, value)) && CurrentLoad() == old(CurrentLoad())
    {
      var index := IndexOf(key);
      var bucket := buckets[index].value;
      previous := Some(bucket[at].value);
      OverwrittenHolds(keys, buckets, contents, index, at, value);
      contents := contents[keys.class_(key) := bucket[at].(value := value)];
      buckets := buckets[index := Some(bucket[at := bucket[at].(value := value)])];
    }

    method AddEntry(e: Pair<K, V>)
      requires Valid() && keys.class_(e.key) !in contents
      modifies this
      ensures Valid() && contents == Stored(keys, old(contents), e)
      ensures CurrentLoad() == AfterOp(loadFactor, initialCapacity, old(CurrentLoad()), PutNew)
    {
      InsertedHolds(keys, buckets, contents, e);
      contents := contents[keys.class_(e.key) := e];
      count := count + 1;
      Append(e);
      EnsureLoad();
    }

    method Remove(key: K) returns (previous: Option<V>)
      requires Valid()
      modifies this
      ensures Valid()
      ensures var c := keys.class_(key);
              && previous == (if c in old(contents) then Some(old(contents)[c].value) else None)
              && contents == old(contents) - {c}
              && CurrentLoad() == AfterOp(loadFactor, initialCapacity, old(CurrentLoad()),
                                          if c in old(contents) then RemoveOne else RemoveNone)
      ensures old(LoadKept()) ==> LoadKept()
    {
      ghost var before, op := CurrentLoad(), if keys.class_(key) in contents then RemoveOne else RemoveNone;
      var at := Find(key);
      if at >= 0 {
        previous := RemoveAt(key, at);
      } else {
        previous := None;
        assert contents - {keys.class_(key)} == contents;
      }
      OpKeepsLoad(loadFactor, initialCapacity, before, op);
    }

    method RemoveAt(key: K, at: nat) returns (previous: Option<V>)
      requires Valid() && keys.class_(key) in contents && at < |Items(buckets[IndexOf(key)])|
      requires Items(buckets[IndexOf(key)])[at] == contents[keys.class_(key)]
      modifies this
      ensures Valid() && previous == Some(old(contents)[keys.class_(key)].value)
      ensures contents == old(contents) - {keys.class_(key)}
      ensures |buckets| == |old(buckets)| && count == old(count) - 1
    {
      var index := IndexOf(key);
      count := count - 1;
      var bucket := buckets[index].value;
      previous := Some(bucket[at].value);
      RemovedHolds(keys, buckets, contents, index, at);
      assert contents.Keys == (contents - {keys.class_(key)}).Keys + {keys.class_(key)};
      contents := contents - {keys.class_(key)};
      if |bucket| > 1 {
        buckets := buckets[index := Some(bucket[..at] + bucket[at + 1..])];
      } else {
        buckets := buckets[index := None];
      }
    }

    /** Stores the next entry of an iterator over another map. */
    method PutNext(it: Iterator<K, V, C>) returns (entry: Pair<K, V>)
      requires Valid() && it.Valid() && !it.endOfBuckets && it.map_ != this
      modifies this, it
      ensures Valid() && it.Valid() && old(it.Remaining()) == [entry] + it.Remaining()
      ensures contents == Stored(keys, old(contents), entry)
      ensures old(LoadKept()) ==> LoadKept()
    {
      entry := it.Next();
      ghost var b, i, end := it.bucketIndex, it.itemIndex, it.endOfBuckets;
      var previous := Put(entry.key, entry.value);
      assert it.bucketIndex == b && it.itemIndex == i && it.endOfBuckets == end;
    }

    /** Stores what an iterator over another map still has to yield. */
    method PutRest(it: Iterator<K, V, C>)
      requires Valid() && it.Valid() && it.map_ != this && Distinct(keys, it.Remaining())
      modifies this, it
      ensures Valid() && contents == Merged(old(contents), MapOf(keys, old(it.Remaining())))
      ensures old(LoadKept()) ==> LoadKept()
    {
      ghost var es, before := it.Remaining(), contents;
      ghost var done, rest := [], es;
      while !it.endOfBuckets
        invariant Valid() && it.Valid() && it.Remaining() == rest
        invariant old(LoadKept()) ==> LoadKept()
        invariant es == done + rest
        invariant contents == Merged(before, MapOf(keys, done))
        decreases |rest|
      {
        var entry := PutNext(it);
        rest := it.Remaining();
        MergedNext(keys, before, es, done, entry, rest);
        done := done + [entry];
      }
      assert es == done;
    }

    /** Stores every entry of another map. */
    method PutAll(m: HashMap<K, V, C>)
      requires Valid() && m.Valid() && m != this && m.keys == keys
      modifies this
      ensures Valid() && contents == Merged(old(contents), m.contents)
      ensures old(LoadKept()) ==> LoadKept()
    {
      FlattenIsMap(keys, m.buckets, m.contents);
      var it := new Iterator(m);
      PutRest(it);
    }

    method Clone() returns (r: HashMap<K, V, C>)
      requires Valid()
      ensures fresh(r) && r.Valid() && r.keys == keys && r.contents == contents && r.LoadKept()
    {
      r := new HashMap(keys);
      r.PutAll(this);
      assert Merged(map[], contents) == contents;
    }

    /** The keys that `c.contains` refuses, in the order of the iterator. */
    method KeysToRemove(kept: set<C>) returns (toRemove: seq<K>)
      ensures toRemove == Rejected(keys, Flatten(buckets), kept)
    {
      ghost var es := Flatten(buckets);
      ghost var done, rest := [], es;
      var it := new Iterator(this);
      toRemove := [];
      while !it.endOfBuckets
        invariant it.Valid() && it.Remaining() == rest
        invariant es == done + rest
        invariant toRemove == Rejected(keys, done, kept)
        decreases |rest|
      {
        var entry := it.Next();
        rest := it.Remaining();
        Shift(es, done, entry, rest);
        RejectedMore(keys, done, entry, kept);
        if keys.class_(entry.key) !in kept {
          toRemove := toRemove + [entry.key];
        }
        done := done + [entry];
      }
      assert es == done;
    }

    method RemoveEach(ks: seq<K>)
      requires Valid()
      modifies this
      ensures Valid() && contents == RemovedAll(keys, old(contents), ks)
      ensures old(LoadKept()) ==> LoadKept()
    {
      ghost var all := contents;
      for i := 0 to |ks|
        invariant Valid() && contents == RemovedAll(keys, all, ks[..i])
        invariant old(LoadKept()) ==> LoadKept()
      {
        var removed := Remove(ks[i]);
        RemovedMore(keys, all, ks, i);
      }
      assert ks[..|ks|] == ks;
    }

    /** `keySet().retainAll(c)`, where `c` contains the keys of the classes `kept`. */
    method RetainAllKeys(kept: set<C>) returns (changed: bool)
      requires Valid()
      modifies this
      ensures Valid() && contents == Restricted(old(contents), kept)
      ensures old(LoadKept()) ==> LoadKept()
      ensures changed <==> contents != old(contents)
    {
      ghost var all, es := contents, Flatten(buckets);
      FlattenEnumerates(keys, buckets, contents);
      var toRemove := KeysToRemove(kept);
      RemoveEach(toRemove);
      RejectedAreTheRest(keys, es, all, kept);
      return |toRemove| > 0;
    }
  }

  function Rejected<K, V, C(==)>(keys: Keys<K, C>, es: seq<Pair<K, V>>, kept: set<C>): seq<K> {
    if es == [] then []
    else
      var e := es[|es| - 1];
      Rejected(keys, es[..|es| - 1], kept) + (if keys.class_(e.key) in kept then [] else [e.key])
  }

  lemma RejectedMore<K, V, C>(keys: Keys<K, C>, es: seq<Pair<K, V>>, e: Pair<K, V>, kept: set<C>)
    ensures Rejected(keys, es + [e], kept) ==
            Rejected(keys, es, kept) + (if keys.class_(e.key) in kept then [] else [e.key])
  {
  }

  ghost function RemovedAll<K, V, C>(keys: Keys<K, C>, m: map<C, Pair<K, V>>, ks: seq<K>): map<C, Pair<K, V>> {
    if ks == [] then m else RemovedAll(keys, m, ks[..|ks| - 1]) - {keys.class_(ks[|ks| - 1])}
  }

  lemma RemovedMore<K, V, C>(keys: Keys<K, C>, m: map<C, Pair<K, V>>, ks: seq<K>, i: nat)
    requires i < |ks|
    ensures RemovedAll(keys, m, ks[..i + 1]) == RemovedAll(keys, m, ks[..i]) - {keys.class_(ks[i])}
  {
    assert ks[..i + 1][..i] == ks[..i];
  }

  lemma Shift<T>(all: seq<T>, done: seq<T>, e: T, rest: seq<T>)
    requires all == done + ([e] + rest)
    ensures all == (done + [e]) + rest
  {
  }

  lemma ListsMore<K, V, C>(keys: Keys<K, C>, es: seq<Pair<K, V>>, e: Pair<K, V>, c: C)
    ensures Lists(keys, es + [e], c) <==> Lists(keys, es, c) || keys.class_(e.key) == c
  {
    var r := es + [e];
    assert r[|es|] == e;
    if Lists(keys, es, c) {
      var i :| 0 <= i < |es| && keys.class_(es[i].key) == c;
      assert r[i] == es[i];
    }
  }

  /** What is kept or not among the entries. */
  ghost function Pruned<K, V, C>(
    keys: Keys<K, C>, m: map<C, Pair<K, V>>, es: seq<Pair<K, V>>, kept: set<C>): map<C, Pair<K, V>>
  {
    map c | c in m && (c in kept || !Lists(keys, es, c)) :: m[c]
  }

  lemma {:induction false} RemovedRejected<K, V, C>(
    keys: Keys<K, C>, m: map<C, Pair<K, V>>, es: seq<Pair<K, V>>, kept: set<C>)
    ensures RemovedAll(keys, m, Rejected(keys, es, kept)) == Pruned(keys, m, es, kept)
  {
    if es == [] {
      assert forall c :: !Lists(keys, es, c);
    } else {
      var front, e := es[..|es| - 1], es[|es| - 1];
      assert es == front + [e];
      var c := keys.class_(e.key);
      RemovedRejected(keys, m, front, kept);
      var r0 := Rejected(keys, front, kept);
      assert (r0 + [e.key])[..|r0|] == r0 && r0 + [] == r0;
      var pruned, pruned0 := Pruned(keys, m, es, kept), Pruned(keys, m, front, kept);
      forall d | d in m ensures d in pruned <==> d in pruned0 && (c in kept || d != c) {
        ListsMore(keys, front, e, d);
      }
      assert pruned == if c in kept then pruned0 else pruned0 - {c};
    }
  }

  lemma {:induction false} NoneRejected<K, V, C>(keys: Keys<K, C>, es: seq<Pair<K, V>>, kept: set<C>)
    ensures Rejected(keys, es, kept) == [] <==> forall i :: 0 <= i < |es| ==> keys.class_(es[i].key) in kept
  {
    if es != [] {
      NoneRejected(keys, es[..|es| - 1], kept);
    }
  }

  lemma RejectedAreTheRest<K, V, C>(keys: Keys<K, C>, es: seq<Pair<K, V>>, m: map<C, Pair<K, V>>, kept: set<C>)
    requires Enumerates(keys, es, m)
    ensures RemovedAll(keys, m, Rejected(keys, es, kept)) == Restricted(m, kept)
    ensures Rejected(keys, es, kept) == [] <==> Restricted(m, kept) == m
  {
    RemovedRejected(keys, m, es, kept);
    NoneRejected(keys, es, kept);
    forall c | c in m ensures c in Pruned(keys, m, es, kept) <==> c in kept {
      assert Lists(keys, es, c);
    }
    if Rejected(keys, es, kept) == [] {
      assert Pruned(keys, m, es, kept) == m;
    } else {
      var i :| 0 <= i < |es| && keys.class_(es[i].key) !in kept;
      assert keys.class_(es[i].key) in m && keys.class_(es[i].key) !in Restricted(m, kept);
    }
  }

  /** The map after storing an entry: a class already there keeps its key. */
  function Stored<K, V, C(==)>(keys: Keys<K, C>, m: map<C, Pair<K, V>>, e: Pair<K, V>): map<C, Pair<K, V>> {
    var c := keys.class_(e.key);
    m[c := if c in m then m[c].(value := e.value) else e]
  }

  ghost function Merged<K, V, C>(a: map<C, Pair<K, V>>, b: map<C, Pair<K, V>>): map<C, Pair<K, V>> {
    map c | c in a.Keys + b.Keys ::
      if c !in b then a[c] else if c in a then a[c].(value := b[c].value) else b[c]
  }

  ghost function Restricted<K, V, C>(m: map<C, Pair<K, V>>, kept: set<C>): map<C, Pair<K, V>> {
    map c | c in m && c in kept :: m[c]
  }

  /** The entries after position (`b`, `i`). */
  function After<K, V>(buckets: seq<Bucket<K, V>>, b: nat, i: int): seq<Pair<K, V>>
    requires -1 <= i
    decreases |buckets| - b
  {
    if b >= |buckets| then [] else ItemsAfter(Items(buckets[b]), i) + After(buckets, b + 1, -1)
  }

  /** Before its first entry an iterator still has to yield all of them. */
  lemma {:induction false} AfterAll<K, V>(buckets: seq<Bucket<K, V>>, b: nat)
    requires b <= |buckets|
    ensures After(buckets, b, -1) == Flatten(buckets[b..])
    decreases |buckets| - b
  {
    if b < |buckets| {
      AfterAll(buckets, b + 1);
      assert buckets[b..][1..] == buckets[b + 1..];
    }
  }

  function ItemsAfter<T>(items: seq<T>, i: int): seq<T>
    requires -1 <= i
  {
    if i + 1 <= |items| then items[i + 1..] else []
  }

  lemma AfterEnd<K, V>(buckets: seq<Bucket<K, V>>, b: nat, i: int)
    requires -1 <= i && b >= |buckets|
    ensures After(buckets, b, i) == []
  {
  }

  /** Behind the last entry of a bucket come those of the buckets after it. */
  lemma AfterBucket<K, V>(buckets: seq<Bucket<K, V>>, b: nat, i: int)
    requires -1 <= i && b < |buckets| && i + 1 >= |Items(buckets[b])|
    ensures After(buckets, b, i) == After(buckets, b + 1, -1)
  {
    assert ItemsAfter(Items(buckets[b]), i) == [];
  }

  class Iterator<K, V, C(==)> {
    const map_: HashMap<K, V, C>
    var bucketIndex: nat
    var itemIndex: int
    var endOfBuckets: bool
    ghost const snapshot: seq<Bucket<K, V>>

    /** The map is unmodified, and the iterator stands at an entry or at the end. */
    ghost predicate Valid()
      reads this, map_
    {
      && map_.buckets == snapshot
      && (endOfBuckets ||
          (bucketIndex < |snapshot| && snapshot[bucketIndex].Some? && 0 <= itemIndex < |snapshot[bucketIndex].value|))
    }

    /** The entries from the current one on. */
    ghost function Remaining(): seq<Pair<K, V>>
      requires Valid()
      reads this, map_
    {
      if endOfBuckets then [] else After(snapshot, bucketIndex, itemIndex - 1)
    }

    constructor (m: HashMap<K, V, C>)
      ensures map_ == m && Valid() && Remaining() == Flatten(m.buckets)
    {
      map_ := m;
      bucketIndex := 0;
      itemIndex := -1;
      endOfBuckets := false;
      snapshot := m.buckets;
      new;
      AfterAll(snapshot, 0);
      assert snapshot[0..] == snapshot;
      FindNext();
    }

    /** `rest` is what comes behind the current position. */
    ghost predicate Before(rest: seq<Pair<K, V>>)
      reads this, map_
    {
      && -1 <= itemIndex && map_.buckets == snapshot
      && rest == if endOfBuckets then [] else After(snapshot, bucketIndex, itemIndex)
    }

    /** One step on: to the next entry of the bucket, to the next bucket, or to the end. */
    method StepOn(ghost rest: seq<Pair<K, V>>) returns (found: bool)
      requires Before(rest) && !endOfBuckets
      modifies this
      ensures found ==> Valid() && Remaining() == rest
      ensures !found ==> Before(rest) && (endOfBuckets || old(bucketIndex) < bucketIndex <= |snapshot|)
    {
      ghost var i := itemIndex;
      itemIndex := itemIndex + 1;
      if bucketIndex >= |map_.buckets| {
        AfterEnd(snapshot, bucketIndex, i);
        endOfBuckets := true;
        return false;
      }
      var bucket := map_.buckets[bucketIndex];
      if bucket.None? || itemIndex >= |bucket.value| {
        AfterBucket(snapshot, bucketIndex, i);
        itemIndex := -1;
        bucketIndex := bucketIndex + 1;
        return false;
      }
      assert rest == After(snapshot, bucketIndex, itemIndex - 1);
      return true;
    }

    method FindNext()
      requires map_.buckets == snapshot && -1 <= itemIndex && !endOfBuckets
      modifies this
      ensures Valid() && Remaining() == After(snapshot, old(bucketIndex), old(itemIndex))
    {
      ghost var rest := After(snapshot, bucketIndex, itemIndex);
      while !endOfBuckets
        invariant Before(rest)
        decreases !endOfBuckets, |snapshot| - bucketIndex
      {
        var found := StepOn(rest);
        if found { return; }
      }
    }

    method HasNext() returns (r: bool)
      requires Valid()
      ensures r <==> Remaining() != []
    {
      assert !endOfBuckets ==> Remaining()[0] == snapshot[bucketIndex].value[itemIndex];
      return !endOfBuckets;
    }

    method Next() returns (e: Pair<K, V>)
      requires Valid() && !endOfBuckets
      modifies this
      ensures Valid() && old(Remaining()) == [e] + Remaining()
    {
      e := map_.buckets[bucketIndex].value[itemIndex];
      FindNext();
    }

    /** Runs the iterator to its end, as `toArray` does. */
    method Collect() returns (es: seq<Pair<K, V>>)
      requires Valid()
      modifies this
      ensures es == old(Remaining())
    {
      es := [];
      ghost var all, rest := Remaining(), Remaining();
      while !endOfBuckets
        invariant Valid() && rest == Remaining()
        invariant es + rest == all
        decreases |rest|
      {
        var e := Next();
        rest := Remaining();
        Shift(all, es, e, rest);
        es := es + [e];
      }
    }
  }

  /** Iterating over an unmodified map returns every entry exactly once. */
  method ToArray<K, V, C(==)>(m: HashMap<K, V, C>) returns (es: seq<Pair<K, V>>)
    requires m.Valid()
    ensures Enumerates(m.keys, es, m.contents) && |es| == |m.contents|
  {
    var it := new Iterator(m);
    es := it.Collect();
    FlattenEnumerates(m.keys, m.buckets, m.contents);
    EnumerationIsMap(m.keys, es, m.contents);
  }

  /** The number of buckets after `ensureLoad`. */
  function Length(loadFactor: real, length: nat, count: nat): nat {
    if count as real <= loadFactor * (length as real) then length else 2 * length
  }

  lemma NextOf<K, V, C>(
    keys: Keys<K, C>, es: seq<Pair<K, V>>, done: seq<Pair<K, V>>, e: Pair<K, V>, rest: seq<Pair<K, V>>)
    requires Distinct(keys, es) && es == done + ([e] + rest)
    ensures es == (done + [e]) + rest
    ensures var c := keys.class_(e.key);
            && c !in MapOf(keys, done)
            && MapOf(keys, done + [e]) == MapOf(keys, done)[c := e]
  {
    assert forall i :: 0 <= i < |done| ==> es[i] == done[i];
    assert es[|done|] == e;
    MapOfEntries(keys, done);
    assert !Lists(keys, done, keys.class_(e.key));
    assert (done + [e])[..|done|] == done;
  }

  lemma FlattenIsMap<K, V, C>(keys: Keys<K, C>, buckets: seq<Bucket<K, V>>, m: map<C, Pair<K, V>>)
    requires buckets != [] && Holds(keys, buckets, m)
    ensures Distinct(keys, Flatten(buckets)) && MapOf(keys, Flatten(buckets)) == m
  {
    FlattenEnumerates(keys, buckets, m);
    EnumerationIsMap(keys, Flatten(buckets), m);
  }

  lemma MergedNext<K, V, C>(
    keys: Keys<K, C>, a: map<C, Pair<K, V>>, es: seq<Pair<K, V>>,
    done: seq<Pair<K, V>>, e: Pair<K, V>, rest: seq<Pair<K, V>>)
    requires Distinct(keys, es) && es == done + ([e] + rest)
    ensures es == (done + [e]) + rest
    ensures Merged(a, MapOf(keys, done + [e])) == Stored(keys, Merged(a, MapOf(keys, done)), e)
  {
    NextOf(keys, es, done, e, rest);
  }

  // ----- the load over whole runs

  /** A run as far as the load is concerned: a put adds a key or not, a remove takes one away or not. */
  datatype LoadOp = PutNew | PutAgain | RemoveOne | RemoveNone | ClearAll

  datatype Load = Load(length: nat, count: nat)

  function AfterOp(loadFactor: real, capacity: nat, s: Load, op: LoadOp): Load {
    match op
    case PutNew => Load(Length(loadFactor, s.length, s.count + 1), s.count + 1)
    case PutAgain => s
    case RemoveOne => if s.count > 0 then s.(count := s.count - 1) else s
    case RemoveNone => s
    case ClearAll => Load(capacity, 0)
  }

  function AfterOps(loadFactor: real, capacity: nat, ops: seq<LoadOp>): Load {
    if ops == [] then Load(capacity, 0)
    else AfterOp(loadFactor, capacity, AfterOps(loadFactor, capacity, ops[..|ops| - 1]), ops[|ops| - 1])
  }

  predicate Within(loadFactor: real, s: Load) {
    s.count as real <= loadFactor * (s.length as real)
  }

  /** Twice the initial limit reaches one: a single doubling makes room for the first entry. */
  predicate RoomForOne(loadFactor: real, capacity: nat) {
    2.0 * (loadFactor * (capacity as real)) >= 1.0
  }

  predicate Kept(loadFactor: real, capacity: nat, s: Load) {
    RoomForOne(loadFactor, capacity) ==> s.count == 0 || Within(loadFactor, s)
  }

  lemma OpKeepsLoad(loadFactor: real, capacity: nat, s: Load, op: LoadOp)
    requires 0 < capacity <= s.length
    ensures Kept(loadFactor, capacity, s) ==> Kept(loadFactor, capacity, AfterOp(loadFactor, capacity, s, op))
    ensures Kept(loadFactor, capacity, s) && RoomForOne(loadFactor, capacity) &&
            (op.PutNew? || (op.PutAgain? && s.count > 0)) ==>
              Within(loadFactor, AfterOp(loadFactor, capacity, s, op))
  {
    if RoomForOne(loadFactor, capacity) && op.PutNew? && (s.count == 0 || Within(loadFactor, s)) {
      NewKeyStaysWithin(loadFactor, capacity, s);
    }
  }

  predicate EndsWithPut(ops: seq<LoadOp>) {
    ops != [] && (ops[|ops| - 1].PutNew? || ops[|ops| - 1].PutAgain?)
  }

  lemma {:induction false} LoadStaysWithin(loadFactor: real, capacity: nat, ops: seq<LoadOp>)
    requires RoomForOne(loadFactor, capacity)
    ensures var s := AfterOps(loadFactor, capacity, ops);
            s.length >= capacity && (s.count == 0 || Within(loadFactor, s))
  {
    if ops != [] {
      LoadStaysWithin(loadFactor, capacity, ops[..|ops| - 1]);
      var s := AfterOps(loadFactor, capacity, ops[..|ops| - 1]);
      if ops[|ops| - 1].PutNew? {
        NewKeyStaysWithin(loadFactor, capacity, s);
      }
    }
  }

  lemma NewKeyStaysWithin(loadFactor: real, capacity: nat, s: Load)
    requires RoomForOne(loadFactor, capacity)
    requires s.length >= capacity && (s.count == 0 || Within(loadFactor, s))
    ensures Within(loadFactor, AfterOp(loadFactor, capacity, s, PutNew))
  {
  }

  /**
    The load stays within `loadFactor * buckets` after every put of every run if and only if twice the initial
    limit reaches one: a single doubling must make room for the first entry.
    */
  lemma LoadWithinExactly(loadFactor: real, capacity: nat)
    requires capacity > 0
    ensures (forall ops :: EndsWithPut(ops) ==> Within(loadFactor, AfterOps(loadFactor, capacity, ops))) <==>
            RoomForOne(loadFactor, capacity)
  {
    if forall ops :: EndsWithPut(ops) ==> Within(loadFactor, AfterOps(loadFactor, capacity, ops)) {
      var once := [PutNew];
      assert EndsWithPut(once) && once[..0] == [];
      assert AfterOps(loadFactor, capacity, once) == AfterOp(loadFactor, capacity, Load(capacity, 0), PutNew);
    }
    if RoomForOne(loadFactor, capacity) {
      forall ops | EndsWithPut(ops) ensures Within(loadFactor, AfterOps(loadFactor, capacity, ops)) {
        LoadStaysWithin(loadFactor, capacity, ops);
      }
    }
  }
}
