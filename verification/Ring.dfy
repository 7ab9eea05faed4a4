/** A fixed-capacity FIFO in a wrap-around array, and the bounded dedup window built on it. */
module Ring {
  import opened Option

  lemma WrapOnce(a: nat, n: nat)
    requires n > 0 && a < 2 * n
    ensures a % n == if a < n then a else a - n
  {
  }

  // Drop-oldest push on the abstract queue.
  function PushStep<T>(cap: nat, s: seq<T>, v: T): seq<T>
    requires cap > 0
  {
    (if |s| >= cap then s[1..] else s) + [v]
  }

  function Dropped<T>(cap: nat, s: seq<T>): seq<T>
    requires cap > 0
  {
    if |s| >= cap then [s[0]] else []
  }

  function MapSeq<T, U>(f: T -> U, s: seq<T>): seq<U> {
    seq(|s|, i requires 0 <= i < |s| => f(s[i]))
  }

  lemma MapSeqSnoc<T, U>(f: T -> U, s: seq<T>, i: nat)
    requires i < |s|
    ensures MapSeq(f, s[..i + 1]) == MapSeq(f, s[..i]) + [f(s[i])]
  {
  }

  datatype Op<T> = Push(v: T) | Pop

  // The live contents, and everything that has left, in order of leaving.
  datatype Stream<T> = Stream(live: seq<T>, gone: seq<T>)

  function Step<T>(cap: nat, s: Stream<T>, op: Op<T>): Stream<T>
    requires cap > 0
  {
    match op
    case Push(v) => Stream(PushStep(cap, s.live, v), s.gone + Dropped(cap, s.live))
    case Pop => if s.live == [] then s else Stream(s.live[1..], s.gone + [s.live[0]])
  }

  class Ring<T> {
    const items: array<T>
    var head: nat
    var count: nat
    const zero: T

    // How many slots after head the slot p comes.
    ghost function Age(p: int): int
      reads this
    {
      if p >= head then p - head else p + items.Length - head
    }

    // Slots that hold no live element hold the zero value, so nothing is kept reachable by accident.
    ghost predicate Valid()
      reads this, items
    {
      && 0 < items.Length && head < items.Length && count <= items.Length
      && (forall p :: 0 <= p < items.Length && Age(p) >= count ==> items[p] == zero)
    }

    ghost function Contents(): (s: seq<T>)
      reads this, items
      requires Valid()
      ensures |s| == count
    {
      seq(count, i requires 0 <= i < count && Valid() reads this, items =>
        items[if head + i < items.Length then head + i else head + i - items.Length])
    }

    // zero is Go's zero value of T.
    constructor (capacity: int, zero: T)
      ensures Valid() && fresh(items) && Contents() == []
      ensures items.Length == (if capacity < 1 then 1 else capacity) && this.zero == zero
    {
      var n := if capacity < 1 then 1 else capacity;
      items := new T[n](_ => zero);
      head, count := 0, 0;
      this.zero := zero;
    }

    // Push's write into the slot after the newest element.
    method Append(v: T)
      requires Valid() && count < items.Length
      modifies this`count, items
      ensures Valid() && Contents() == old(Contents()) + [v]
    {
      WrapOnce(head + count, items.Length);
      var tail := (head + count) % items.Length;
      items[tail] := v;
      count := count + 1;
    }

    // Take the oldest element out and clear its slot; the shared first half of Pop and of Push on a full ring.
    method EvictOldest() returns (v: T)
      requires Valid() && count > 0
      modifies this, items
      ensures Valid() && v == old(Contents())[0] && Contents() == old(Contents())[1..]
    {
      ghost var before := Contents();
      v := items[head];
      items[head] := zero;
      WrapOnce(head + 1, items.Length);
      head := (head + 1) % items.Length;
      count := count - 1;
      assert forall p :: 0 <= p < items.Length ==> Age(p) == if p == old(head) then items.Length - 1 else old(Age(p)) - 1;
      assert Contents() == before[1..];
    }

    method Push(v: T) returns (evicted: T, didEvict: bool)
      requires Valid()
      modifies this, items
      ensures Valid() && Contents() == PushStep(items.Length, old(Contents()), v)
      ensures didEvict <==> |old(Contents())| == items.Length
      ensures Contents() == (if didEvict then old(Contents())[1..] else old(Contents())) + [v]
      ensures didEvict ==> evicted == old(Contents())[0]
      ensures Step(items.Length, Stream(old(Contents()), []), Op.Push(v))
              == Stream(Contents(), if didEvict then [evicted] else [])
      ensures !didEvict ==> evicted == zero
    {
      evicted, didEvict := zero, false;
      if count == items.Length {
        evicted := EvictOldest();
        didEvict := true;
      }
      Append(v);
    }

    method Pop() returns (v: T, ok: bool)
      requires Valid()
      modifies this, items
      ensures Valid() && (ok <==> old(Contents()) != [])
      ensures ok ==> v == old(Contents())[0] && Contents() == old(Contents())[1..]
      ensures !ok ==> v == zero && Contents() == []
      ensures Step(items.Length, Stream(old(Contents()), []), Op.Pop) == Stream(Contents(), if ok then [v] else [])
    {
      if count == 0 {
        return zero, false;
      }
      v := EvictOldest();
      ok := true;
    }

    method Peek() returns (v: T, ok: bool)
      requires Valid()
      ensures ok <==> Contents() != []
      ensures v == if ok then Contents()[0] else zero
    {
      if count == 0 {
        return zero, false;
      }
      return items[head], true;
    }

    method Map<U>(f: T -> U, zeroU: U) returns (out: Ring<U>)
      requires Valid()
      ensures fresh(out) && fresh(out.items) && out.Valid() && out.items.Length == items.Length
      ensures out.Contents() == MapSeq(f, Contents())
    {
      out := new Ring(items.Length, zeroU);
      ghost var all := Contents();
      for i := 0 to count
        invariant out.Valid() && fresh(out) && fresh(out.items) && out.items.Length == items.Length
        invariant out.Contents() == MapSeq(f, all[..i])
      {
        WrapOnce(head + i, items.Length);
        var idx := (head + i) % items.Length;
        assert items[idx] == all[i];
        var _, _ := out.Push(f(items[idx]));
        MapSeqSnoc(f, all, i);
      }
      assert all[..count] == all;
    }
  }

  // ---- The stream law ----

  function Run<T>(cap: nat, ops: seq<Op<T>>): Stream<T>
    requires cap > 0
  {
    if ops == [] then Stream([], []) else Step(cap, Run(cap, ops[..|ops| - 1]), ops[|ops| - 1])
  }

  function Pushed<T>(ops: seq<Op<T>>): seq<T> {
    if ops == [] then []
    else Pushed(ops[..|ops| - 1]) + match ops[|ops| - 1] case Push(v) => [v] case Pop => []
  }

  // What left (popped or evicted), followed by what is live, is what was pushed: nothing lost, nothing reordered.
  lemma {:induction false} StreamLaw<T>(cap: nat, ops: seq<Op<T>>)
    requires cap > 0
    ensures var s := Run(cap, ops); s.gone + s.live == Pushed(ops) && |s.live| <= cap
  {
    if ops == [] {
    } else {
      StreamLaw(cap, ops[..|ops| - 1]);
    }
  }

  function MapOps<T, U>(f: T -> U, ops: seq<Op<T>>): seq<Op<U>> {
    seq(|ops|, i requires 0 <= i < |ops| => match ops[i] case Push(v) => Push(f(v)) case Pop => Pop)
  }

  // Mapping the ring is the same as having run the mapped operations.
  lemma {:induction false} MapCommutes<T, U>(cap: nat, f: T -> U, ops: seq<Op<T>>)
    requires cap > 0
    ensures var s, t := Run(cap, ops), Run(cap, MapOps(f, ops));
            t.live == MapSeq(f, s.live) && t.gone == MapSeq(f, s.gone)
  {
    if ops == [] {
    } else {
      assert MapOps(f, ops)[..|ops| - 1] == MapOps(f, ops[..|ops| - 1]);
      MapCommutes(cap, f, ops[..|ops| - 1]);
    }
  }

  // ---- RecentKeys ----

  ghost predicate DistinctKeys(w: seq<string>) {
    forall i, j :: 0 <= i < j < |w| ==> w[i] != w[j]
  }

  function Window(cap: nat, w: seq<string>, k: string): seq<string>
    requires cap > 0
  {
    if k in w then w else PushStep(cap, w, k)
  }

  // The index stays in step with the window: Seen's delete and insert are exactly what the push does to it.
  lemma WindowKeys(cap: nat, w: seq<string>, k: string)
    requires 0 < cap && |w| <= cap && DistinctKeys(w) && k !in w
    ensures DistinctKeys(Window(cap, w, k))
    ensures (set x | x in Window(cap, w, k)) == (set x | x in w) - (set x | x in Dropped(cap, w)) + {k}
  {
  }

  class RecentKeys {
    const ring: Ring<string>
    var seen: set<string>

    ghost predicate Valid()
      reads this, ring, ring.items
    {
      && ring.Valid() && seen == (set k | k in ring.Contents())
      && DistinctKeys(ring.Contents())
    }

    constructor (size: int)
      ensures Valid() && fresh(ring) && fresh(ring.items) && ring.Contents() == []
      ensures ring.items.Length == if size < 1 then 1 else size
    {
      ring := new Ring(size, "");
      seen := {};
    }

    // Records k unless the window already holds it.
    method Seen(k: string) returns (was: bool)
      requires Valid()
      modifies this, ring, ring.items
      ensures Valid() && (was <==> k in old(ring.Contents()))
      ensures ring.Contents() == Window(ring.items.Length, old(ring.Contents()), k)
      ensures was ==> ring.Contents() == old(ring.Contents())
      ensures !was ==>
        var before := old(ring.Contents());
        ring.Contents() == (if |before| == ring.items.Length then before[1..] else before) + [k]
    {
      if k in seen {
        return true;
      }
      ghost var before := ring.Contents();
      var oldest, evicted := ring.Push(k);
      if evicted {
        seen := seen - {oldest};
      }
      seen := seen + {k};
      WindowKeys(ring.items.Length, before, k);
      return false;
    }

    method Contains(k: string) returns (b: bool)
      requires Valid()
      ensures b <==> k in ring.Contents()
    {
      b := k in seen;
    }

    method Size() returns (n: nat)
      requires Valid()
      ensures n == ring.items.Length && |ring.Contents()| <= n
    {
      n := ring.items.Length;
    }
  }

  function WindowAfter(cap: nat, ks: seq<string>): seq<string>
    requires cap > 0
  {
    if ks == [] then [] else Window(cap, WindowAfter(cap, ks[..|ks| - 1]), ks[|ks| - 1])
  }

  // The keys Seen recorded: those the window did not hold when they came.
  function Recorded(cap: nat, ks: seq<string>): seq<string>
    requires cap > 0
  {
    if ks == [] then []
    else
      var n := |ks| - 1;
      Recorded(cap, ks[..n]) + if ks[n] in WindowAfter(cap, ks[..n]) then [] else [ks[n]]
  }

  function LastN<T>(s: seq<T>, n: nat): seq<T> {
    if |s| <= n then s else s[|s| - n..]
  }

  lemma PushSlides<T>(cap: nat, s: seq<T>, v: T)
    requires cap > 0
    ensures PushStep(cap, LastN(s, cap), v) == LastN(s + [v], cap)
  {
  }

  lemma WindowSlides(cap: nat, recorded: seq<string>, k: string)
    requires cap > 0 && DistinctKeys(LastN(recorded, cap))
    ensures var w := LastN(recorded, cap);
            && Window(cap, w, k) == LastN(recorded + (if k in w then [] else [k]), cap)
            && DistinctKeys(Window(cap, w, k)) && |Window(cap, w, k)| <= cap
  {
    if k in LastN(recorded, cap) {
      assert recorded + [] == recorded;
    } else {
      WindowKeys(cap, LastN(recorded, cap), k);
      PushSlides(cap, recorded, k);
    }
  }

  // Over any run of Seen, the window is the last Size recorded keys, all distinct; so (with Contains above)
  // Contains(k) answers whether k is among them.
  lemma {:induction false} WindowIsLastRecorded(cap: nat, ks: seq<string>)
    requires cap > 0
    ensures WindowAfter(cap, ks) == LastN(Recorded(cap, ks), cap)
    ensures DistinctKeys(WindowAfter(cap, ks)) && |WindowAfter(cap, ks)| <= cap
  {
    if ks == [] {
    } else {
      var n := |ks| - 1;
      WindowIsLastRecorded(cap, ks[..n]);
      WindowSlides(cap, Recorded(cap, ks[..n]), ks[n]);
    }
  }
}
