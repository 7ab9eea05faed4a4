/** The bounded LRU cache: a recency list (front = most recent) indexed by a map. */
module Lru {
  import opened Option
  import opened Int64

  datatype Entry<K, V> = Entry(key: K, value: V)

  // The three counters are uint64 and wrap.
  function Bump(n: nat): nat { (n + 1) % TWO_64 }

  datatype Cache<K, V> = Cache(cap: int, items: seq<Entry<K, V>>, hits: nat, misses: nat, evictions: nat)

  datatype Op<K, V> = Get(key: K) | Peek(key: K) | Put(key: K, value: V) | Remove(key: K)

  function Find<K(==), V>(items: seq<Entry<K, V>>, key: K): Option<V> {
    if items == [] then None
    else if items[0].key == key then Some(items[0].value)
    else Find(items[1..], key)
  }

  function Without<K(==), V>(items: seq<Entry<K, V>>, key: K): seq<Entry<K, V>> {
    if items == [] then []
    else (if items[0].key == key then [] else [items[0]]) + Without(items[1..], key)
  }

  function Empty<K, V>(cap: int): Cache<K, V> {
    Cache(if cap < 1 then 1 else cap, [], 0, 0, 0)
  }

  function GetStep<K(==), V>(c: Cache<K, V>, key: K): Cache<K, V> {
    match Find(c.items, key)
    case Some(v) => c.(items := [Entry(key, v)] + Without(c.items, key), hits := Bump(c.hits))
    case None => c.(misses := Bump(c.misses))
  }

  function PutStep<K(==), V>(c: Cache<K, V>, key: K, value: V): Cache<K, V> {
    var items := [Entry(key, value)] + Without(c.items, key);
    if Find(c.items, key).Some? || |items| <= c.cap then c.(items := items)
    else c.(items := items[..|items| - 1], evictions := Bump(c.evictions))
  }

  // The pair handed to the eviction hook, if any.
  function Evicted<K(==), V>(c: Cache<K, V>, key: K): Option<Entry<K, V>> {
    if Find(c.items, key).None? && |c.items| >= c.cap && c.items != [] then Some(c.items[|c.items| - 1]) else None
  }

  function RemoveStep<K(==), V>(c: Cache<K, V>, key: K): Cache<K, V> {
    c.(items := Without(c.items, key))
  }

  function Apply<K(==), V>(c: Cache<K, V>, op: Op<K, V>): Cache<K, V> {
    match op
    case Get(k) => GetStep(c, k)
    case Peek(k) => c
    case Put(k, v) => PutStep(c, k, v)
    case Remove(k) => RemoveStep(c, k)
  }

  function Run<K(==), V>(cap: int, ops: seq<Op<K, V>>): Cache<K, V> {
    if ops == [] then Empty(cap) else Apply(Run(cap, ops[..|ops| - 1]), ops[|ops| - 1])
  }

  // ---- The object: map and list updated in lockstep ----

  class Element<K, V> {
    const key: K
    var value: V

    constructor (key: K, value: V)
      ensures this.key == key && this.value == value
    {
      this.key := key;
      this.value := value;
    }
  }

  ghost function Entries<K, V>(ll: seq<Element<K, V>>): (s: seq<Entry<K, V>>)
    reads ll
  {
    seq(|ll|, i requires 0 <= i < |ll| reads ll => Entry(ll[i].key, ll[i].value))
  }

  // container/list's Remove: unlink one element.
  function Unlink<K, V>(ll: seq<Element<K, V>>, e: Element<K, V>): seq<Element<K, V>> {
    if ll == [] then [] else if ll[0] == e then ll[1..] else [ll[0]] + Unlink(ll[1..], e)
  }

  ghost predicate Distinct<K, V>(ll: seq<Element<K, V>>) {
    forall i, j :: 0 <= i < j < |ll| ==> ll[i].key != ll[j].key
  }

  lemma {:induction false} UnlinkAt<K, V>(ll: seq<Element<K, V>>, i: nat)
    requires i < |ll| && Distinct(ll)
    ensures Unlink(ll, ll[i]) == ll[..i] + ll[i + 1..]
  {
    if i == 0 {
    } else {
      UnlinkAt(ll[1..], i - 1);
      assert ll[1..][..i - 1] == ll[1..i];
      assert ll[..i] == [ll[0]] + ll[1..i];
    }
  }

  lemma {:induction false} WithoutAbsent<K, V>(items: seq<Entry<K, V>>, key: K)
    requires forall i :: 0 <= i < |items| ==> items[i].key != key
    ensures Without(items, key) == items && Find(items, key) == None
  {
    if items == [] {
    } else {
      WithoutAbsent(items[1..], key);
    }
  }

  lemma {:induction false} WithoutAt<K, V>(items: seq<Entry<K, V>>, i: nat)
    requires i < |items| && forall j, k :: 0 <= j < k < |items| ==> items[j].key != items[k].key
    ensures Without(items, items[i].key) == items[..i] + items[i + 1..]
  {
    if i == 0 {
      WithoutAbsent(items[1..], items[0].key);
    } else {
      WithoutAt(items[1..], i - 1);
      assert items[1..][..i - 1] == items[1..i];
      assert items[..i] == [items[0]] + items[1..i];
    }
  }

  lemma {:induction false} UnlinkKeeps<K, V>(ll: seq<Element<K, V>>, e: Element<K, V>)
    requires Distinct(ll) && e in ll
    ensures var r := Unlink(ll, e);
            && |r| == |ll| - 1 && Distinct(r)
            && (forall x :: x in r ==> x in ll && x != e)
            && (forall x :: x in ll && x != e ==> x in r)
            && (forall i :: 0 <= i < |r| ==> r[i].key != e.key)
  {
    assert ll == [ll[0]] + ll[1..];
    if ll[0] != e {
      UnlinkKeeps(ll[1..], e);
      var tail := Unlink(ll[1..], e);
      forall i | 0 <= i < |tail| ensures tail[i].key != ll[0].key {
        assert tail[i] in tail;
      }
      var i :| 0 <= i < |ll| && ll[i] == e;
    }
  }

  lemma EntriesDrop<K, V>(ll: seq<Element<K, V>>, i: nat)
    requires i < |ll|
    ensures Entries(ll[..i] + ll[i + 1..]) == Entries(ll)[..i] + Entries(ll)[i + 1..]
  {
  }

  lemma UnlinkEntries<K, V>(ll: seq<Element<K, V>>, e: Element<K, V>)
    requires Distinct(ll) && e in ll
    ensures Entries(Unlink(ll, e)) == Without(Entries(ll), e.key)
  {
    var i :| 0 <= i < |ll| && ll[i] == e;
    UnlinkAt(ll, i);
    EntriesDrop(ll, i);
    WithoutAt(Entries(ll), i);
  }

  lemma MoveToFrontKeeps<K, V>(ll: seq<Element<K, V>>, e: Element<K, V>)
    requires Distinct(ll) && e in ll
    ensures var r := [e] + Unlink(ll, e);
            && |r| == |ll| && Distinct(r)
            && (forall x :: x in r ==> x in ll)
            && (forall x :: x in ll ==> x in r)
    ensures Entries([e] + Unlink(ll, e)) == [Entry(e.key, e.value)] + Without(Entries(ll), e.key)
  {
    UnlinkKeeps(ll, e);
    UnlinkEntries(ll, e);
  }

  lemma {:induction false} FindAt<K, V>(items: seq<Entry<K, V>>, i: nat)
    requires i < |items| && forall j :: 0 <= j < i ==> items[j].key != items[i].key
    ensures Find(items, items[i].key) == Some(items[i].value)
  {
    if i == 0 {
    } else {
      FindAt(items[1..], i - 1);
    }
  }

  // The map indexes exactly the elements of the list.
  ghost predicate Indexed<K, V>(ll: seq<Element<K, V>>, item: map<K, Element<K, V>>) {
    && Distinct(ll)
    && (forall e :: e in ll ==> e.key in item && item[e.key] == e)
    && (forall k :: k in item ==> item[k] in ll && item[k].key == k)
  }

  lemma InsertIndexed<K, V>(ll: seq<Element<K, V>>, item: map<K, Element<K, V>>, e: Element<K, V>)
    requires Indexed(ll, item) && e.key !in item
    ensures Indexed([e] + ll, item[e.key := e])
  {
  }

  lemma EvictIndexed<K, V>(ll: seq<Element<K, V>>, item: map<K, Element<K, V>>)
    requires Indexed(ll, item) && ll != []
    ensures Indexed(ll[..|ll| - 1], item - {ll[|ll| - 1].key})
  {
  }

  // Put, case by case.
  lemma PutFound<K, V>(c: Cache<K, V>, key: K, value: V)
    requires Find(c.items, key).Some?
    ensures PutStep(c, key, value) == c.(items := [Entry(key, value)] + Without(c.items, key))
    ensures Evicted(c, key) == None
  {
  }

  lemma PutNew<K, V>(c: Cache<K, V>, key: K, value: V)
    requires 1 <= c.cap && |c.items| <= c.cap && forall i :: 0 <= i < |c.items| ==> c.items[i].key != key
    ensures var items := [Entry(key, value)] + c.items;
            if |items| <= c.cap then PutStep(c, key, value) == c.(items := items) && Evicted(c, key) == None
            else && PutStep(c, key, value) == c.(items := items[..|items| - 1], evictions := Bump(c.evictions))
                 && Evicted(c, key) == Some(items[|items| - 1])
  {
    WithoutAbsent(c.items, key);
  }

  class LRU<K(==), V> {
    var cap: int
    var ll: seq<Element<K, V>>
    var item: map<K, Element<K, V>>
    var hits: nat
    var misses: nat
    var evictions: nat

    ghost predicate Valid()
      reads this
    {
      1 <= cap && |ll| <= cap && Indexed(ll, item)
    }

    ghost function View(): Cache<K, V>
      reads this, ll
    {
      Cache(cap, Entries(ll), hits, misses, evictions)
    }

    constructor (cap: int)
      ensures Valid() && View() == Empty(cap)
    {
      this.cap := if cap < 1 then 1 else cap;
      ll := [];
      item := map[];
      hits, misses, evictions := 0, 0, 0;
    }

    // The lockstep: the map finds a key exactly when the list holds it, with the same value.
    lemma Lockstep(key: K)
      requires Valid()
      ensures Find(Entries(ll), key) == if key in item then Some(item[key].value) else None
    {
      if key in item {
        var i :| 0 <= i < |ll| && ll[i] == item[key];
        FindAt(Entries(ll), i);
      } else {
        WithoutAbsent(Entries(ll), key);
      }
    }

    // container/list's MoveToFront.
    method MoveToFront(e: Element<K, V>)
      requires Indexed(ll, item) && e in ll
      modifies this`ll
      ensures Indexed(ll, item) && |ll| == |old(ll)| && ll[0] == e
      ensures forall x :: x in ll ==> x in old(ll)
      ensures Entries(ll) == [Entry(e.key, e.value)] + Without(old(Entries(ll)), e.key)
    {
      MoveToFrontKeeps(ll, e);
      ll := [e] + Unlink(ll, e);
    }

    // container/list's PushFront, and the map assignment that follows it.
    method PushFront(key: K, value: V)
      requires Indexed(ll, item) && key !in item
      modifies this`ll, this`item
      ensures Indexed(ll, item) && |ll| == |old(ll)| + 1 && fresh(ll[0])
      ensures forall x :: x in ll ==> x in old(ll) || fresh(x)
      ensures Entries(ll) == [Entry(key, value)] + old(Entries(ll))
    {
      var e := new Element(key, value);
      InsertIndexed(ll, item, e);
      ll := [e] + ll;
      item := item[key := e];
    }

    // Put's first half: the key is present, so its element moves to the front and is assigned through.
    method Update(key: K, value: V)
      requires Indexed(ll, item) && key in item
      modifies this`ll, ll
      ensures Indexed(ll, item) && |ll| == |old(ll)|
      ensures forall x :: x in ll ==> x in old(ll)
      ensures Entries(ll) == [Entry(key, value)] + Without(old(Entries(ll)), key)
    {
      MoveToFront(item[key]);
      ghost var moved := Entries(ll);
      ll[0].value := value;
      assert Entries(ll) == moved[0 := Entry(key, value)];
    }

    // Put's eviction: unlink the back of the list and drop its key from the map.
    method EvictOldest() returns (evicted: Option<Entry<K, V>>)
      requires ll != [] && Indexed(ll, item)
      modifies this`ll, this`item, this`evictions
      ensures Indexed(ll, item) && ll == old(ll)[..|old(ll)| - 1]
      ensures evictions == Bump(old(evictions))
      ensures var items := old(Entries(ll));
              && Entries(ll) == items[..|items| - 1] && evicted == Some(items[|items| - 1])
    {
      EvictIndexed(ll, item);
      var oldest := ll[|ll| - 1];
      evicted := Some(Entry(oldest.key, oldest.value));
      ll := ll[..|ll| - 1];
      item := item - {oldest.key};
      evictions := Bump(evictions);
    }

    method Get(key: K) returns (r: Option<V>)
      requires Valid()
      modifies this
      ensures Valid() && View() == GetStep(old(View()), key)
      ensures r == Find(old(View()).items, key)
    {
      Lockstep(key);
      if key in item {
        var e := item[key];
        MoveToFront(e);
        hits := Bump(hits);
        r := Some(e.value);
      } else {
        misses := Bump(misses);
        r := None;
      }
    }

    method Peek(key: K) returns (r: Option<V>)
      requires Valid()
      ensures r == Find(View().items, key)
    {
      Lockstep(key);
      r := if key in item then Some(item[key].value) else None;
    }

    // Put's second half: the key is new.
    method Insert(key: K, value: V) returns (evicted: Option<Entry<K, V>>)
      requires Valid() && key !in item
      modifies this`ll, this`item, this`evictions
      ensures Valid()
      ensures var items := [Entry(key, value)] + old(Entries(ll));
              if |items| <= cap then Entries(ll) == items && evicted == None && evictions == old(evictions)
              else && Entries(ll) == items[..|items| - 1] && evicted == Some(items[|items| - 1])
                   && evictions == Bump(old(evictions))
      ensures forall e :: e in ll ==> e in old(ll) || fresh(e)
    {
      PushFront(key, value);
      evicted := None;
      if |ll| > cap {
        evicted := EvictOldest();
      }
    }

    method Put(key: K, value: V) returns (evicted: Option<Entry<K, V>>)
      requires Valid()
      modifies this, ll
      ensures Valid() && View() == PutStep(old(View()), key, value)
      ensures evicted == Evicted(old(View()), key)
      ensures forall e :: e in ll ==> e in old(ll) || fresh(e)
    {
      Lockstep(key);
      ghost var before := View();
      if key in item {
        PutFound(before, key, value);
        Update(key, value);
        evicted := None;
      } else {
        assert forall i :: 0 <= i < |ll| ==> ll[i].key != key by {
          assert forall i :: 0 <= i < |ll| ==> ll[i] in ll;
        }
        PutNew(before, key, value);
        evicted := Insert(key, value);
      }
    }

    method Remove(key: K) returns (removed: bool)
      requires Valid()
      modifies this
      ensures Valid() && View() == RemoveStep(old(View()), key)
      ensures removed == Find(old(View()).items, key).Some?
    {
      Lockstep(key);
      removed := key in item;
      if removed {
        var e := item[key];
        UnlinkKeeps(ll, e);
        UnlinkEntries(ll, e);
        ll := Unlink(ll, e);
        item := item - {e.key};
      } else {
        WithoutAbsent(Entries(ll), key);
      }
    }

    method Len() returns (n: nat)
      requires Valid()
      ensures n == |View().items| <= View().cap
    {
      n := |ll|;
    }

    method Metrics() returns (h: nat, m: nat, e: nat)
      ensures h == View().hits && m == View().misses && e == View().evictions
    {
      h, m, e := hits, misses, evictions;
    }
  }

  // ---- Inclusion: the same operations on two capacities ----

  ghost predicate DistinctKeys<K, V>(items: seq<Entry<K, V>>) {
    forall i, j :: 0 <= i < j < |items| ==> items[i].key != items[j].key
  }

  ghost predicate WellFormed<K, V>(c: Cache<K, V>) {
    1 <= c.cap && |c.items| <= c.cap && DistinctKeys(c.items)
  }

  predicate Subsequence<T(==)>(a: seq<T>, b: seq<T>) {
    if a == [] then true
    else if b == [] then false
    else (a[0] == b[0] && Subsequence(a[1..], b[1..])) || Subsequence(a, b[1..])
  }

  ghost predicate Included<K, V>(small: Cache<K, V>, large: Cache<K, V>) {
    && WellFormed(small) && WellFormed(large)
    && Subsequence(small.items, large.items)
    && small.cap - |small.items| <= large.cap - |large.items|
  }

  lemma {:induction false} FindSound<K, V>(items: seq<Entry<K, V>>, key: K)
    ensures Find(items, key).Some? ==> Entry(key, Find(items, key).value) in items
    ensures Find(items, key).None? ==> forall i :: 0 <= i < |items| ==> items[i].key != key
  {
    if items == [] {
    } else {
      FindSound(items[1..], key);
    }
  }

  lemma {:induction false} WithoutMember<K, V>(items: seq<Entry<K, V>>, key: K)
    ensures forall e :: e in Without(items, key) ==> e in items && e.key != key
    ensures forall e :: e in items && e.key != key ==> e in Without(items, key)
  {
    if items == [] {
    } else {
      WithoutMember(items[1..], key);
      assert items == [items[0]] + items[1..];
    }
  }

  lemma WithoutShape<K, V>(items: seq<Entry<K, V>>, key: K)
    requires DistinctKeys(items)
    ensures |Without(items, key)| == |items| - (if Find(items, key).Some? then 1 else 0)
    ensures DistinctKeys(Without(items, key))
    ensures forall i :: 0 <= i < |Without(items, key)| ==> Without(items, key)[i].key != key
  {
    FindSound(items, key);
    if Find(items, key).Some? {
      var i :| 0 <= i < |items| && items[i] == Entry(key, Find(items, key).value);
      WithoutAt(items, i);
    } else {
      WithoutAbsent(items, key);
    }
  }

  // What one operation does to the set of live entries.
  lemma ApplyShape<K, V>(c: Cache<K, V>, op: Op<K, V>)
    requires WellFormed(c)
    ensures WellFormed(Apply(c, op)) && Apply(c, op).cap == c.cap
    ensures |Apply(c, op).items| <= |c.items| + 1
    ensures forall e :: e in Apply(c, op).items ==>
      (op.Put? && e == Entry(op.key, op.value)) || (e in c.items && !((op.Put? || op.Remove?) && e.key == op.key))
  {
    FindSound(c.items, op.key);
    WithoutMember(c.items, op.key);
    WithoutShape(c.items, op.key);
    forall e | e in Apply(c, op).items
      ensures (op.Put? && e == Entry(op.key, op.value)) || (e in c.items && !((op.Put? || op.Remove?) && e.key == op.key))
    {
      match op
      case Put(k, v) =>
        assert e in [Entry(k, v)] + Without(c.items, k);
        assert e == Entry(k, v) || e in Without(c.items, k);
      case Get(k) =>
        if Find(c.items, k).Some? {
          assert e == Entry(k, Find(c.items, k).value) || e in Without(c.items, k);
        }
      case _ =>
    }
  }

  lemma {:induction false} SubsequenceMember<T>(a: seq<T>, b: seq<T>, x: T)
    requires Subsequence(a, b) && x in a
    ensures x in b && |a| <= |b|
    decreases |b|
  {
    if a[0] == b[0] && Subsequence(a[1..], b[1..]) {
      if |a| > 1 {
        var y := if x == a[0] then a[1] else x;
        assert y in a[1..];
        SubsequenceMember(a[1..], b[1..], y);
      }
    } else {
      SubsequenceMember(a, b[1..], x);
    }
  }

  lemma FrontIncluded<T>(a: seq<T>, b: seq<T>, e: T)
    requires Subsequence(a, b)
    ensures Subsequence([e] + a, [e] + b)
  {
  }

  lemma {:induction false} SubsequenceWithout<K, V>(a: seq<Entry<K, V>>, b: seq<Entry<K, V>>, key: K)
    requires Subsequence(a, b)
    ensures Subsequence(Without(a, key), Without(b, key))
    decreases |b|
  {
    if a == [] {
    } else {
      if a[0] == b[0] && Subsequence(a[1..], b[1..]) {
        SubsequenceWithout(a[1..], b[1..], key);
        FrontIncluded(Without(a[1..], key), Without(b[1..], key), a[0]);
        assert a[0].key == key ==> Without(a, key) == Without(a[1..], key) && Without(b, key) == Without(b[1..], key);
      } else {
        SubsequenceWithout(a, b[1..], key);
        assert b[0].key == key ==> Without(b, key) == Without(b[1..], key);
        assert b[0].key != key ==> Without(b, key)[1..] == Without(b[1..], key);
      }
    }
  }

  // Dropping the last element of the smaller list, and of both.
  lemma {:induction false} SubsequenceInit<T>(a: seq<T>, b: seq<T>)
    requires a != [] && Subsequence(a, b)
    ensures Subsequence(a[..|a| - 1], b)
    ensures b != [] && Subsequence(a[..|a| - 1], b[..|b| - 1])
    decreases |b|
  {
    if a[0] == b[0] && Subsequence(a[1..], b[1..]) {
      if |a| > 1 {
        SubsequenceInit(a[1..], b[1..]);
        assert a[1..][..|a| - 2] == a[..|a| - 1][1..];
        assert b[1..][..|b| - 2] == b[..|b| - 1][1..];
      }
    } else {
      SubsequenceInit(a, b[1..]);
      assert b[1..][..|b| - 2] == b[..|b| - 1][1..];
      if |a| > 1 {
        assert b[..|b| - 1][0] == b[0];
      }
    }
  }

  // A key the smaller cache holds, the larger one holds with the same value.
  lemma IncludedFind<K, V>(small: Cache<K, V>, large: Cache<K, V>, key: K)
    requires Included(small, large)
    ensures Find(small.items, key).Some? ==> Find(large.items, key) == Find(small.items, key)
  {
    FindSound(small.items, key);
    if Find(small.items, key).Some? {
      var e := Entry(key, Find(small.items, key).value);
      SubsequenceMember(small.items, large.items, e);
      var i :| 0 <= i < |large.items| && large.items[i] == e;
      FindAt(large.items, i);
    }
  }

  lemma GetIncluded<K, V>(small: Cache<K, V>, large: Cache<K, V>, k: K)
    requires Included(small, large)
    ensures Subsequence(GetStep(small, k).items, GetStep(large, k).items)
  {
    IncludedFind(small, large, k);
    SubsequenceWithout(small.items, large.items, k);
    var a, b := Without(small.items, k), Without(large.items, k);
    if Find(small.items, k).Some? {
      FrontIncluded(a, b, Entry(k, Find(small.items, k).value));
    } else {
      FindSound(small.items, k);
      WithoutAbsent(small.items, k);
      if Find(large.items, k).Some? {
        assert ([Entry(k, Find(large.items, k).value)] + b)[1..] == b;
      }
    }
  }

  // One operation keeps the inclusion. When Put evicts from the larger cache that cache is full, so the
  // smaller one is full too and evicts as well.
  lemma StepIncluded<K, V>(small: Cache<K, V>, large: Cache<K, V>, op: Op<K, V>)
    requires Included(small, large)
    ensures Included(Apply(small, op), Apply(large, op))
  {
    var k := op.key;
    IncludedFind(small, large, k);
    ApplyShape(small, op);
    ApplyShape(large, op);
    WithoutShape(small.items, k);
    WithoutShape(large.items, k);
    SubsequenceWithout(small.items, large.items, k);
    var a, b := Without(small.items, k), Without(large.items, k);
    match op {
      case Peek(_) =>
      case Remove(_) =>
      case Put(_, v) =>
        FrontIncluded(a, b, Entry(k, v));
        SubsequenceInit([Entry(k, v)] + a, [Entry(k, v)] + b);
      case Get(_) =>
        GetIncluded(small, large, k);
    }
  }

  function HitCount<K(==), V>(cap: int, ops: seq<Op<K, V>>): nat {
    if ops == [] then 0
    else
      var n := |ops| - 1;
      HitCount(cap, ops[..n]) + if ops[n].Get? && Find(Run(cap, ops[..n]).items, ops[n].key).Some? then 1 else 0
  }

  function Effective(cap: int): int { if cap < 1 then 1 else cap }

  // Belady's anomaly cannot happen: for one operation sequence, the smaller cache's recency list is a
  // subsequence of the larger one's, and hits never fall as capacity grows.
  lemma {:induction false} Inclusion<K, V>(n: int, m: int, ops: seq<Op<K, V>>)
    requires Effective(n) <= Effective(m)
    ensures Included(Run(n, ops), Run(m, ops))
    ensures HitCount(n, ops) <= HitCount(m, ops)
  {
    if ops != [] {
      var init := ops[..|ops| - 1];
      Inclusion(n, m, init);
      StepIncluded(Run(n, init), Run(m, init), ops[|ops| - 1]);
      IncludedFind(Run(n, init), Run(m, init), ops[|ops| - 1].key);
    } else {
      assert Included(Run(n, ops), Run(m, ops));
    }
  }

  // Every hit of the smaller cache is a hit of the larger one, with the same value, at every point of the run.
  lemma SmallHitIsLargeHit<K, V>(n: int, m: int, ops: seq<Op<K, V>>, i: nat)
    requires Effective(n) <= Effective(m) && i < |ops| && ops[i].Get?
    requires Find(Run(n, ops[..i]).items, ops[i].key).Some?
    ensures Find(Run(m, ops[..i]).items, ops[i].key) == Find(Run(n, ops[..i]).items, ops[i].key)
  {
    Inclusion(n, m, ops[..i]);
    IncludedFind(Run(n, ops[..i]), Run(m, ops[..i]), ops[i].key);
  }

  function GetCount<K, V>(ops: seq<Op<K, V>>): nat {
    if ops == [] then 0 else GetCount(ops[..|ops| - 1]) + if ops[|ops| - 1].Get? then 1 else 0
  }

  // Entries handed to the eviction hook.
  function EvictionCount<K(==), V>(cap: int, ops: seq<Op<K, V>>): nat {
    if ops == [] then 0
    else
      var n := |ops| - 1;
      EvictionCount(cap, ops[..n])
      + if ops[n].Put? && Evicted(Run(cap, ops[..n]), ops[n].key).Some? then 1 else 0
  }

  ghost predicate CountersAre<K, V>(c: Cache<K, V>, h: int, g: int, e: int) {
    c.hits == h % TWO_64 && c.misses == (g - h) % TWO_64 && c.evictions == e % TWO_64
  }

  // Put evicts, and counts it, exactly when the key is new and the cache is full.
  lemma PutCountsEviction<K, V>(c: Cache<K, V>, op: Op<K, V>)
    ensures WellFormed(c) && op.Put? ==>
      PutStep(c, op.key, op.value).evictions == if Evicted(c, op.key).Some? then Bump(c.evictions) else c.evictions
  {
    FindSound(c.items, op.key);
    if Find(c.items, op.key).None? {
      WithoutAbsent(c.items, op.key);
    }
  }

  lemma BumpCounts(n: int)
    ensures Bump(n % TWO_64) == (n + 1) % TWO_64
  {
  }

  // What one operation does to the counters.
  lemma StepCounts<K, V>(c: Cache<K, V>, op: Op<K, V>, h: int, g: int, e: int)
    requires WellFormed(c) && CountersAre(c, h, g, e)
    ensures CountersAre(Apply(c, op),
                        h + (if op.Get? && Find(c.items, op.key).Some? then 1 else 0),
                        g + (if op.Get? then 1 else 0),
                        e + (if op.Put? && Evicted(c, op.key).Some? then 1 else 0))
  {
    BumpCounts(h);
    BumpCounts(g - h);
    BumpCounts(e);
    PutCountsEviction(c, op);
  }

  // The value an unbounded map would hold for key after ops.
  function Latest<K(==), V>(ops: seq<Op<K, V>>, key: K): Option<V> {
    if ops == [] then None
    else
      var op := ops[|ops| - 1];
      if op.Put? && op.key == key then Some(op.value)
      else if op.Remove? && op.key == key then None
      else Latest(ops[..|ops| - 1], key)
  }

  // A cache never serves a stale value: what it holds is what the unbounded map holds.
  lemma {:induction false} Coherent<K, V>(cap: int, ops: seq<Op<K, V>>)
    ensures WellFormed(Run(cap, ops)) && Run(cap, ops).cap == Effective(cap)
    ensures |Run(cap, ops).items| <= |ops|
    ensures forall e :: e in Run(cap, ops).items ==> Latest(ops, e.key) == Some(e.value)
  {
    if ops == [] {
    } else {
      Coherent(cap, ops[..|ops| - 1]);
      ApplyShape(Run(cap, ops[..|ops| - 1]), ops[|ops| - 1]);
    }
  }

  lemma RunWellFormed<K, V>(cap: int, ops: seq<Op<K, V>>)
    ensures WellFormed(Run(cap, ops))
  {
    Coherent(cap, ops);
  }

  // The uint64 counters are the true counts modulo 2^64; every Get is a hit or a miss.
  lemma {:induction false} MetricsAreTrue<K, V>(cap: int, ops: seq<Op<K, V>>)
    ensures HitCount(cap, ops) <= GetCount(ops)
    ensures CountersAre(Run(cap, ops), HitCount(cap, ops), GetCount(ops), EvictionCount(cap, ops))
  {
    if ops == [] {
    } else {
      var n := |ops| - 1;
      MetricsAreTrue(cap, ops[..n]);
      RunWellFormed(cap, ops[..n]);
      StepCounts(Run(cap, ops[..n]), ops[n], HitCount(cap, ops[..n]), GetCount(ops[..n]), EvictionCount(cap, ops[..n]));
    }
  }

  // ---- Coherence with an unbounded map ----

  lemma GetCoherent<K, V>(cap: int, ops: seq<Op<K, V>>, key: K)
    ensures var hit := Find(Run(cap, ops).items, key); hit.Some? ==> Latest(ops, key) == hit
  {
    Coherent(cap, ops);
    FindSound(Run(cap, ops).items, key);
  }

  lemma FindAtEntry<K, V>(items: seq<Entry<K, V>>, key: K)
    requires DistinctKeys(items)
    ensures forall e :: e in items && e.key == key ==> Find(items, key) == Some(e.value)
  {
  }

  // An entry leaves only through Put or Remove of its key, or through an eviction from a full cache.
  lemma KeptUnlessFull<K, V>(c: Cache<K, V>, op: Op<K, V>, key: K)
    requires WellFormed(c) && |c.items| < c.cap
    ensures op.Put? ==> Entry(op.key, op.value) in Apply(c, op).items
    ensures forall e :: e in c.items && !((op.Put? || op.Remove?) && e.key == op.key) ==> e in Apply(c, op).items
  {
    FindSound(c.items, op.key);
    WithoutMember(c.items, op.key);
    WithoutShape(c.items, op.key);
    if op.Get? && Find(c.items, op.key).Some? {
      FindAtEntry(c.items, op.key);
    }
  }

  // Until it has seen more operations than it has room for, the cache is the unbounded map.
  lemma {:induction false} CompleteBelowCapacity<K, V>(cap: int, ops: seq<Op<K, V>>, key: K)
    requires |ops| <= Effective(cap)
    ensures Find(Run(cap, ops).items, key) == Latest(ops, key)
  {
    GetCoherent(cap, ops, key);
    if ops == [] {
    } else {
      var init := ops[..|ops| - 1];
      var op := ops[|ops| - 1];
      CompleteBelowCapacity(cap, init, key);
      Coherent(cap, init);
      var c := Run(cap, init);
      FindSound(c.items, key);
      FindSound(c.items, op.key);
      FindSound(Run(cap, ops).items, key);
      WithoutMember(c.items, op.key);
      WithoutShape(c.items, op.key);
      if Latest(ops, key).Some? {
        assert Entry(key, Latest(ops, key).value) in Run(cap, ops).items by {
          KeptUnlessFull(c, op, key);
        }
      }
    }
  }

  // ---- Recency: who comes first, and who has to go ----

  // The index of the operation that last used key: a Put of it, or a Get that found it. -1 if there was none.
  function LastUse<K(==), V>(cap: int, ops: seq<Op<K, V>>, key: K): int {
    if ops == [] then -1
    else
      var n := |ops| - 1;
      var op := ops[n];
      if op.key == key && (op.Put? || (op.Get? && Find(Run(cap, ops[..n]).items, key).Some?)) then n
      else LastUse(cap, ops[..n], key)
  }

  lemma {:induction false} LastUseBound<K, V>(cap: int, ops: seq<Op<K, V>>, key: K)
    ensures -1 <= LastUse(cap, ops, key) < |ops|
  {
    if ops == [] {
    } else {
      LastUseBound(cap, ops[..|ops| - 1], key);
    }
  }

  ghost predicate Descending<K, V>(items: seq<Entry<K, V>>, use: K -> int) {
    forall i, j :: 0 <= i < j < |items| ==> use(items[i].key) > use(items[j].key)
  }

  function Uses<K(==), V>(cap: int, ops: seq<Op<K, V>>): K -> int { (k: K) => LastUse(cap, ops, k) }

  lemma DropDescending<K, V>(items: seq<Entry<K, V>>, i: nat, use: K -> int)
    requires i < |items| && Descending(items, use)
    ensures Descending(items[..i] + items[i + 1..], use)
  {
    var w := items[..i] + items[i + 1..];
    forall a, b | 0 <= a < b < |w| ensures use(w[a].key) > use(w[b].key) {
      assert w[a] == items[if a < i then a else a + 1] && w[b] == items[if b < i then b else b + 1];
    }
  }

  lemma WithoutDescending<K, V>(items: seq<Entry<K, V>>, key: K, use: K -> int)
    requires DistinctKeys(items) && Descending(items, use)
    ensures Descending(Without(items, key), use)
  {
    FindSound(items, key);
    if Find(items, key).Some? {
      var i :| 0 <= i < |items| && items[i] == Entry(key, Find(items, key).value);
      WithoutAt(items, i);
      DropDescending(items, i, use);
    } else {
      WithoutAbsent(items, key);
    }
  }

  lemma FrontDescending<K, V>(e: Entry<K, V>, items: seq<Entry<K, V>>, use: K -> int, use': K -> int)
    requires Descending(items, use)
    requires forall i :: 0 <= i < |items| ==> items[i].key != e.key && use'(items[i].key) == use(items[i].key) < use'(e.key)
    ensures Descending([e] + items, use')
  {
    var all := [e] + items;
    forall i, j | 0 <= i < j < |all| ensures use'(all[i].key) > use'(all[j].key) {
      assert all[j] == items[j - 1];
      assert i > 0 ==> all[i] == items[i - 1];
    }
  }

  lemma UsedDescending<K, V>(cap: int, ops: seq<Op<K, V>>, value: V)
    requires ops != [] && Descending(Run(cap, ops[..|ops| - 1]).items, Uses(cap, ops[..|ops| - 1]))
    requires LastUse(cap, ops, ops[|ops| - 1].key) == |ops| - 1
    ensures var c, key := Run(cap, ops[..|ops| - 1]), ops[|ops| - 1].key;
            Descending([Entry(key, value)] + Without(c.items, key), Uses(cap, ops))
  {
    var n := |ops| - 1;
    var key, items := ops[n].key, Run(cap, ops[..n]).items;
    RunWellFormed(cap, ops[..n]);
    WithoutDescending(items, key, Uses(cap, ops[..n]));
    WithoutShape(items, key);
    var w := Without(items, key);
    forall i | 0 <= i < |w|
      ensures Uses(cap, ops)(w[i].key) == Uses(cap, ops[..n])(w[i].key) < Uses(cap, ops)(key)
    {
      LastUseBound(cap, ops[..n], w[i].key);
    }
    FrontDescending(Entry(key, value), w, Uses(cap, ops[..n]), Uses(cap, ops));
  }

  lemma UnusedDescending<K, V>(cap: int, ops: seq<Op<K, V>>)
    requires ops != [] && Descending(Run(cap, ops[..|ops| - 1]).items, Uses(cap, ops[..|ops| - 1]))
    requires LastUse(cap, ops, ops[|ops| - 1].key) < |ops| - 1
    ensures Descending(Run(cap, ops[..|ops| - 1]).items, Uses(cap, ops))
    ensures Descending(Without(Run(cap, ops[..|ops| - 1]).items, ops[|ops| - 1].key), Uses(cap, ops))
  {
    var n := |ops| - 1;
    var items := Run(cap, ops[..n]).items;
    RunWellFormed(cap, ops[..n]);
    forall i, j | 0 <= i < j < |items| ensures Uses(cap, ops)(items[i].key) > Uses(cap, ops)(items[j].key) {
      assert forall k :: k == items[i].key || k == items[j].key ==> Uses(cap, ops)(k) == Uses(cap, ops[..n])(k);
    }
    WithoutDescending(items, ops[n].key, Uses(cap, ops));
  }

  // The recency list is in the order of last use, the latest first: a Put and a hitting Get refresh, a Peek does not.
  lemma {:induction false} ByRecency<K, V>(cap: int, ops: seq<Op<K, V>>)
    ensures Descending(Run(cap, ops).items, Uses(cap, ops))
  {
    if ops == [] {
    } else {
      var n := |ops| - 1;
      ByRecency(cap, ops[..n]);
      LastUseBound(cap, ops[..n], ops[n].key);
      var hit := Find(Run(cap, ops[..n]).items, ops[n].key);
      if ops[n].Put? {
        UsedDescending(cap, ops, ops[n].value);
      } else if ops[n].Get? && hit.Some? {
        UsedDescending(cap, ops, hit.value);
      } else {
        UnusedDescending(cap, ops);
      }
    }
  }

  ghost predicate LeastRecent<K, V>(cap: int, ops: seq<Op<K, V>>, e: Entry<K, V>) {
    e in Run(cap, ops).items && forall x :: x in Run(cap, ops).items ==> LastUse(cap, ops, e.key) <= LastUse(cap, ops, x.key)
  }

  lemma LastIsLeastRecent<K, V>(cap: int, ops: seq<Op<K, V>>)
    requires Run(cap, ops).items != []
    ensures LeastRecent(cap, ops, Run(cap, ops).items[|Run(cap, ops).items| - 1])
  {
    ByRecency(cap, ops);
    var items := Run(cap, ops).items;
    var last := items[|items| - 1];
    forall x | x in items ensures LastUse(cap, ops, last.key) <= LastUse(cap, ops, x.key) {
      var i :| 0 <= i < |items| && items[i] == x;
      assert i < |items| - 1 ==> Uses(cap, ops)(x.key) > Uses(cap, ops)(last.key);
    }
  }

  lemma DropLast<K, V>(e: Entry<K, V>, items: seq<Entry<K, V>>)
    requires items != [] && DistinctKeys(items)
    ensures forall x :: x in ([e] + items)[..|items|] <==> x == e || (x in items && x != items[|items| - 1])
  {
    var n := |items| - 1;
    assert ([e] + items)[..|items|] == [e] + items[..n];
    assert items == items[..n] + [items[n]];
    forall x | x in items[..n] ensures x != items[n] {
      var i :| 0 <= i < n && items[i] == x;
    }
  }

  // What one Put does to the entries.
  lemma PutKeepsOthers<K, V>(c: Cache<K, V>, key: K, value: V)
    requires WellFormed(c)
    ensures Evicted(c, key).Some? <==> |c.items| == c.cap && forall e :: e in c.items ==> e.key != key
    ensures Evicted(c, key).Some? ==> c.items != [] && Evicted(c, key).value == c.items[|c.items| - 1]
    ensures forall e :: e in PutStep(c, key, value).items <==>
      e == Entry(key, value) || (e in c.items && e.key != key && Evicted(c, key) != Some(e))
  {
    FindSound(c.items, key);
    if Find(c.items, key).Some? {
      PutFound(c, key, value);
      WithoutMember(c.items, key);
    } else {
      PutNew(c, key, value);
      if |c.items| == c.cap {
        DropLast(Entry(key, value), c.items);
      }
    }
  }

  // Put evicts exactly when the key is new and the cache is full; what it evicts is the live entry used longest ago,
  // and everything else stays.
  lemma PutEvictsLeastRecent<K, V>(cap: int, ops: seq<Op<K, V>>, key: K, value: V)
    ensures var before, after := Run(cap, ops).items, Run(cap, ops + [Put(key, value)]).items;
            var out := Evicted(Run(cap, ops), key);
            && (out.Some? <==> |before| == Effective(cap) && forall e :: e in before ==> e.key != key)
            && (out.Some? ==> LeastRecent(cap, ops, out.value))
            && (forall e :: e in after <==> e == Entry(key, value) || (e in before && e.key != key && out != Some(e)))
  {
    Coherent(cap, ops);
    assert (ops + [Put(key, value)])[..|ops|] == ops;
    PutKeepsOthers(Run(cap, ops), key, value);
    if Evicted(Run(cap, ops), key).Some? {
      LastIsLeastRecent(cap, ops);
    }
  }

  // The other operations: Get and Peek lose nothing and add nothing, Remove takes out exactly its key.
  lemma OthersKeepEntries<K, V>(cap: int, ops: seq<Op<K, V>>, op: Op<K, V>)
    requires !op.Put?
    ensures var before, after := Run(cap, ops).items, Run(cap, ops + [op]).items;
            forall e :: e in after <==> e in before && !(op.Remove? && e.key == op.key)
  {
    Coherent(cap, ops);
    assert (ops + [op])[..|ops|] == ops;
    var items := Run(cap, ops).items;
    FindSound(items, op.key);
    WithoutMember(items, op.key);
    FindAtEntry(items, op.key);
  }
}
