/** A binary heap over a caller-supplied order, and the bounded best-k stream algorithm built on it. */
module Heap {
  import opened Option

  // less is a strict weak order: "neither ranks above the other" is an equivalence.
  ghost predicate StrictWeakOrder<T(!new)>(less: (T, T) -> bool) {
    && (forall a, b :: less(a, b) ==> !less(b, a))
    && (forall a, b, c :: less(a, b) && less(b, c) ==> less(a, c))
    && (forall a, b, c :: !less(a, b) && !less(b, c) ==> !less(a, c))
  }

  ghost predicate Above<T>(s: seq<T>, less: (T, T) -> bool, i: int)
    requires 0 < i < |s|
  {
    !less(s[i], s[(i - 1) / 2])
  }

  ghost predicate IsHeap<T>(s: seq<T>, less: (T, T) -> bool) {
    forall i :: 0 < i < |s| ==> Above(s, less, i)
  }

  // A heap except that s[i] may rank above its parent.
  ghost predicate HeapButUp<T>(s: seq<T>, less: (T, T) -> bool, i: nat)
    requires i < |s|
  {
    && (forall j :: 0 < j < |s| && j != i ==> Above(s, less, j))
    && (i > 0 ==> forall j :: 0 < j < |s| && (j - 1) / 2 == i ==> !less(s[j], s[(i - 1) / 2]))
  }

  // A heap except that children of s[i] may rank above it.
  ghost predicate HeapButDown<T>(s: seq<T>, less: (T, T) -> bool, i: nat)
    requires i < |s|
  {
    && (forall j :: 0 < j < |s| && (j - 1) / 2 != i ==> Above(s, less, j))
    && (i > 0 ==> forall j :: 0 < j < |s| && (j - 1) / 2 == i ==> !less(s[j], s[(i - 1) / 2]))
  }

  function Swap<T>(s: seq<T>, i: nat, j: nat): (r: seq<T>)
    requires i < |s| && j < |s|
    ensures |r| == |s|
  {
    s[i := s[j]][j := s[i]]
  }

  lemma SwapKeepsMultiset<T>(s: seq<T>, i: nat, j: nat)
    requires i < |s| && j < |s|
    ensures multiset(Swap(s, i, j)) == multiset(s)
  {
  }

  lemma SwapUp<T(!new)>(s: seq<T>, less: (T, T) -> bool, i: nat)
    requires StrictWeakOrder(less) && 0 < i < |s| && HeapButUp(s, less, i) && !Above(s, less, i)
    ensures HeapButUp(Swap(s, i, (i - 1) / 2), less, (i - 1) / 2)
  {
    var p := (i - 1) / 2;
    var r := Swap(s, i, p);
    forall j | 0 < j < |r| && j != p ensures Above(r, less, j) {
      if j != i {
        assert Above(s, less, j);
      }
    }
    if p > 0 {
      assert Above(s, less, p);
    }
    forall j | p > 0 && 0 < j < |r| && (j - 1) / 2 == p ensures !less(r[j], r[(p - 1) / 2]) {
      if j != i {
        assert Above(s, less, j);
      }
    }
  }

  // The child that siftDown swaps with: the one that nothing else at i or below it ranks above.
  ghost predicate IsSmallest<T>(s: seq<T>, less: (T, T) -> bool, i: nat, m: nat) {
    && i < |s| && m < |s| && (m == 2 * i + 1 || m == 2 * i + 2) && less(s[m], s[i])
    && (forall j :: 0 < j < |s| && (j - 1) / 2 == i ==> !less(s[j], s[m]))
  }

  lemma SwapDown<T(!new)>(s: seq<T>, less: (T, T) -> bool, i: nat, m: nat)
    requires StrictWeakOrder(less) && i < |s| && HeapButDown(s, less, i) && IsSmallest(s, less, i, m)
    ensures HeapButDown(Swap(s, i, m), less, m)
  {
    var r := Swap(s, i, m);
    forall j | 0 < j < |r| && (j - 1) / 2 != m ensures Above(r, less, j) {
      if (j - 1) / 2 != i {
        if j == i {
          assert !less(s[m], s[(i - 1) / 2]);
        } else {
          assert Above(s, less, j);
        }
      }
    }
    forall j | 0 < j < |r| && (j - 1) / 2 == m ensures !less(r[j], r[(m - 1) / 2]) {
      assert Above(s, less, j);
    }
  }

  // Nothing in a heap ranks above its top.
  lemma {:induction false} TopIsBest<T(!new)>(s: seq<T>, less: (T, T) -> bool, i: nat)
    requires StrictWeakOrder(less) && IsHeap(s, less) && i < |s|
    ensures !less(s[i], s[0])
  {
    if i == 0 {
    } else {
      assert Above(s, less, i);
      TopIsBest(s, less, (i - 1) / 2);
    }
  }

  // Which of s[i] and its children comes out first.
  function Smallest<T>(s: seq<T>, less: (T, T) -> bool, i: nat): (m: nat)
    requires i < |s|
    ensures m < |s|
  {
    var l := if 2 * i + 1 < |s| && less(s[2 * i + 1], s[i]) then 2 * i + 1 else i;
    if 2 * i + 2 < |s| && less(s[2 * i + 2], s[l]) then 2 * i + 2 else l
  }

  lemma NoSmallerChild<T(!new)>(s: seq<T>, less: (T, T) -> bool, i: nat)
    requires i < |s| && HeapButDown(s, less, i) && Smallest(s, less, i) == i
    ensures IsHeap(s, less)
  {
    forall j | 0 < j < |s| ensures Above(s, less, j) {
      assert (j - 1) / 2 == i ==> j == 2 * i + 1 || j == 2 * i + 2;
    }
  }

  lemma SmallestChild<T(!new)>(s: seq<T>, less: (T, T) -> bool, i: nat)
    requires StrictWeakOrder(less) && i < |s| && Smallest(s, less, i) != i
    ensures IsSmallest(s, less, i, Smallest(s, less, i))
  {
    forall j | 0 < j < |s| && (j - 1) / 2 == i ensures !less(s[j], s[Smallest(s, less, i)]) {
      assert j == 2 * i + 1 || j == 2 * i + 2;
    }
  }

  lemma RemoveTop<T>(before: seq<T>, after: seq<T>)
    requires before != []
    requires after == before[0 := before[|before| - 1]][..|before| - 1]
    ensures multiset(before) == multiset(after) + multiset{before[0]}
  {
    var n := |before|;
    if n == 1 {
      assert before == [before[0]];
    } else {
      assert before == [before[0]] + before[1..n - 1] + [before[n - 1]];
      assert after == [before[n - 1]] + before[1..n - 1];
    }
  }

  lemma RemoveTopLeavesHole<T(!new)>(before: seq<T>, after: seq<T>, less: (T, T) -> bool)
    requires |before| > 1 && IsHeap(before, less)
    requires after == before[0 := before[|before| - 1]][..|before| - 1]
    ensures HeapButDown(after, less, 0)
  {
    forall j | 0 < j < |after| && (j - 1) / 2 != 0 ensures Above(after, less, j) {
      assert Above(before, less, j);
    }
  }

  class Heap<T(!new)> {
    var data: seq<T>
    const less: (T, T) -> bool
    const zero: T

    // zero is Go's zero value of T.
    constructor (less: (T, T) -> bool, zero: T)
      ensures data == [] && this.less == less && this.zero == zero
    {
      data := [];
      this.less := less;
      this.zero := zero;
    }

    ghost predicate Valid()
      reads this
    {
      StrictWeakOrder(less) && IsHeap(data, less)
    }

    method Len() returns (n: nat)
      ensures n == |data|
    {
      n := |data|;
    }

    method SiftUp(start: nat)
      requires start < |data|
      modifies this
      ensures multiset(data) == multiset(old(data))
      ensures StrictWeakOrder(less) && HeapButUp(old(data), less, start) ==> Valid()
    {
      ghost var ordered := StrictWeakOrder(less) && HeapButUp(data, less, start);
      var i := start;
      while i > 0
        invariant 0 <= i < |data| && multiset(data) == multiset(old(data))
        invariant ordered ==> HeapButUp(data, less, i)
      {
        var parent := (i - 1) / 2;
        if !less(data[i], data[parent]) {
          assert ordered ==> Above(data, less, i);
          break;
        }
        if ordered {
          SwapUp(data, less, i);
        }
        SwapKeepsMultiset(data, i, parent);
        data := data[i := data[parent]][parent := data[i]];
        i := parent;
      }
    }

    method Push(v: T)
      modifies this
      ensures multiset(data) == multiset(old(data)) + multiset{v}
      ensures old(Valid()) ==> Valid()
    {
      data := data + [v];
      forall j | IsHeap(old(data), less) && 0 < j < |data| - 1 ensures Above(data, less, j) {
        assert Above(old(data), less, j);
      }
      SiftUp(|data| - 1);
    }

    method Peek() returns (top: T, ok: bool)
      ensures ok <==> data != []
      ensures top == if data == [] then zero else data[0]
      ensures Valid() && ok ==> forall x :: x in data ==> !less(x, top)
    {
      if |data| == 0 {
        return zero, false;
      }
      if Valid() {
        forall i | 0 <= i < |data| ensures !less(data[i], data[0]) {
          TopIsBest(data, less, i);
        }
      }
      return data[0], true;
    }

    method SiftDown(start: nat)
      requires start < |data|
      modifies this
      ensures multiset(data) == multiset(old(data))
      ensures StrictWeakOrder(less) && HeapButDown(old(data), less, start) ==> Valid()
    {
      ghost var ordered := StrictWeakOrder(less) && HeapButDown(data, less, start);
      var i := start;
      var n := |data|;
      while true
        invariant 0 <= i < |data| == n && multiset(data) == multiset(old(data))
        invariant ordered ==> HeapButDown(data, less, i)
        decreases n - i
      {
        var left, right := 2 * i + 1, 2 * i + 2;
        var smallest := i;
        if left < n && less(data[left], data[smallest]) {
          smallest := left;
        }
        if right < n && less(data[right], data[smallest]) {
          smallest := right;
        }
        assert smallest == Smallest(data, less, i);
        if smallest == i {
          if ordered {
            NoSmallerChild(data, less, i);
          }
          return;
        }
        if ordered {
          SmallestChild(data, less, i);
          SwapDown(data, less, i, smallest);
        }
        SwapKeepsMultiset(data, i, smallest);
        data := Swap(data, i, smallest);
        i := smallest;
      }
    }

    method Pop() returns (top: T, ok: bool)
      modifies this
      ensures ok <==> old(data) != []
      ensures ok ==> top == old(data)[0] && multiset(old(data)) == multiset(data) + multiset{top}
      ensures !ok ==> top == zero && data == []
      ensures old(Valid()) ==> Valid()
      ensures old(Valid()) && ok ==> forall x :: x in old(data) ==> !less(x, top)
    {
      var n := |data|;
      if n == 0 {
        return zero, false;
      }
      top := data[0];
      if Valid() {
        forall i | 0 <= i < n ensures !less(data[i], data[0]) {
          TopIsBest(data, less, i);
        }
      }
      ghost var before := data;
      data := data[0 := data[n - 1]];
      data := data[n - 1 := zero];
      data := data[..n - 1];
      RemoveTop(before, data);
      if n > 1 {
        if old(Valid()) {
          RemoveTopLeavesHole(before, data, less);
        }
        SiftDown(0);
      }
      ok := true;
    }

    method CheckInvariant() returns (ok: bool)
      ensures ok <==> IsHeap(data, less)
    {
      var n := |data|;
      var i := 1;
      while i < n
        invariant 1 <= i
        invariant forall j :: 0 < j < i && j < n ==> Above(data, less, j)
      {
        var parent := (i - 1) / 2;
        if less(data[i], data[parent]) {
          assert !Above(data, less, i);
          return false;
        }
        i := i + 1;
      }
      return true;
    }
  }

  // ---- TopK ----

  function Flip(less: (int, int) -> bool): (int, int) -> bool {
    (a, b) => less(b, a)
  }

  lemma FlipOrders(less: (int, int) -> bool)
    requires StrictWeakOrder(less)
    ensures StrictWeakOrder(Flip(less))
  {
  }

  // Nothing left out ranks above anything kept.
  ghost predicate Keeps(all: multiset<int>, kept: multiset<int>, less: (int, int) -> bool) {
    kept <= all && forall x, y :: x in kept && y in all - kept ==> !less(y, x)
  }

  ghost predicate BestFirst(out: seq<int>, less: (int, int) -> bool) {
    forall i, j :: 0 <= i < j < |out| ==> !less(out[j], out[i])
  }

  // What TopK promises: the size best elements of input, best first.
  ghost predicate IsTop(input: seq<int>, size: nat, less: (int, int) -> bool, out: seq<int>) {
    |out| == size && BestFirst(out, less) && Keeps(multiset(input), multiset(out), less)
  }

  predicate SomeAboveZero(input: seq<int>, less: (int, int) -> bool) {
    exists i :: 0 <= i < |input| && less(input[i], 0)
  }

  // How many elements TopK is after. With k <= 0 the empty heap's Peek yields the zero value, and an element
  // that ranks above zero is let in.
  function EffectiveK(input: seq<int>, k: int, less: (int, int) -> bool): nat {
    if k >= 1 then k else if SomeAboveZero(input, less) then 1 else 0
  }

  function Min(a: nat, b: nat): nat { if a < b then a else b }

  lemma SkipKeeps(all: multiset<int>, kept: multiset<int>, top: int, v: int, less: (int, int) -> bool)
    requires StrictWeakOrder(less) && Keeps(all, kept, less)
    requires forall x :: x in kept ==> !less(top, x)
    requires !less(v, top)
    ensures Keeps(all + multiset{v}, kept, less)
  {
  }

  lemma ReplaceKeeps(all: multiset<int>, kept: multiset<int>, rest: multiset<int>, top: int, v: int, less: (int, int) -> bool)
    requires StrictWeakOrder(less) && Keeps(all, kept, less)
    requires kept == rest + multiset{top} && less(v, top)
    requires forall x :: x in kept ==> !less(top, x)
    ensures Keeps(all + multiset{v}, rest + multiset{v}, less)
  {
  }

  // Popping appends to out something that nothing left in the heap is weaker than.
  ghost predicate Drained(kept: multiset<int>, out: seq<int>, data: seq<int>, less: (int, int) -> bool) {
    && multiset(out) + multiset(data) == kept
    && (forall i, j :: 0 <= i < j < |out| ==> !less(out[i], out[j]))
    && (forall i, x :: 0 <= i < |out| && x in multiset(data) ==> !less(out[i], x))
  }

  lemma DrainedStep(kept: multiset<int>, out: seq<int>, data: seq<int>, data': seq<int>, v: int, less: (int, int) -> bool)
    requires Drained(kept, out, data, less)
    requires multiset(data) == multiset(data') + multiset{v}
    requires forall x :: x in data ==> !less(v, x)
    ensures Drained(kept, out + [v], data', less)
  {
    assert v in multiset(data);
    forall i, x | 0 <= i < |out + [v]| && x in multiset(data') ensures !less((out + [v])[i], x) {
      assert x in multiset(data);
      assert x in data;
    }
  }

  // The in-place reversal at the end of TopK.
  method Reverse(s: seq<int>) returns (out: seq<int>)
    ensures |out| == |s| && forall i :: 0 <= i < |s| ==> out[i] == s[|s| - 1 - i]
    ensures multiset(out) == multiset(s)
  {
    out := s;
    var i, j := 0, |out| - 1;
    while i < j
      invariant 0 <= i <= j + 1 && i + j == |s| - 1 && |out| == |s|
      invariant forall k :: 0 <= k < i ==> out[k] == s[|s| - 1 - k] && out[|s| - 1 - k] == s[k]
      invariant forall k :: i <= k <= j ==> out[k] == s[k]
      invariant multiset(out) == multiset(s)
    {
      out := out[i := out[j]][j := out[i]];
      i, j := i + 1, j - 1;
    }
  }

  lemma SizeOfMultiset(before: seq<int>, after: seq<int>, v: int)
    requires multiset(before) == multiset(after) + multiset{v}
    ensures |before| == |after| + 1
  {
    assert |multiset(before)| == |multiset(after)| + 1;
  }

  // TopK's second half: pop everything off the heap of keepers, worst first, then reverse.
  method Drain(h: Heap<int>, less: (int, int) -> bool) returns (out: seq<int>)
    requires h.Valid() && h.less == Flip(less)
    modifies h
    ensures h.data == []
    ensures multiset(out) == multiset(old(h.data)) && BestFirst(out, less)
  {
    out := [];
    ghost var kept := multiset(h.data);
    while |h.data| > 0
      invariant h.Valid() && h.less == Flip(less)
      invariant Drained(kept, out, h.data, less)
      decreases |h.data|
    {
      ghost var before := h.data;
      var v, _ := h.Pop();
      DrainedStep(kept, out, before, h.data, v, less);
      SizeOfMultiset(before, h.data, v);
      out := out + [v];
    }
    out := Reverse(out);
  }

  // What the heap of keepers holds after the prefix seen has gone by.
  ghost predicate Kept(seen: seq<int>, k: int, less: (int, int) -> bool, data: seq<int>) {
    && Keeps(multiset(seen), multiset(data), less)
    && |data| == Min(EffectiveK(seen, k, less), |seen|)
    && (|data| < k ==> multiset(data) == multiset(seen))
    && (k < 1 ==> forall x :: x in data ==> less(x, 0))
  }

  lemma MultisetSize(s: seq<int>, m: multiset<int>)
    requires multiset(s) == m
    ensures |s| == |m|
  {
  }

  lemma KeptGrows(seen: seq<int>, v: int, k: int, less: (int, int) -> bool, data: seq<int>, data': seq<int>)
    requires Kept(seen, k, less, data) && |data| < k && multiset(data') == multiset(data) + multiset{v}
    ensures Kept(seen + [v], k, less, data')
  {
    MultisetSize(data', multiset(data) + multiset{v});
  }

  lemma AboveZeroSplit(seen: seq<int>, v: int, less: (int, int) -> bool)
    ensures SomeAboveZero(seen + [v], less) <==> SomeAboveZero(seen, less) || less(v, 0)
  {
    assert (seen + [v])[|seen|] == v;
    forall i | 0 <= i < |seen| && less(seen[i], 0) ensures SomeAboveZero(seen + [v], less) {
      assert (seen + [v])[i] == seen[i];
    }
  }

  lemma KeptSkips(seen: seq<int>, v: int, k: int, less: (int, int) -> bool, data: seq<int>, top: int)
    requires StrictWeakOrder(less) && Kept(seen, k, less, data) && |data| >= k && !less(v, top)
    requires if data == [] then top == 0 else forall x :: x in data ==> !less(top, x)
    requires data != [] ==> top in data
    ensures Kept(seen + [v], k, less, data)
  {
    SkipKeeps(multiset(seen), multiset(data), top, v, less);
    AboveZeroSplit(seen, v, less);
  }

  lemma KeptReplaces(seen: seq<int>, v: int, k: int, less: (int, int) -> bool,
                     data: seq<int>, top: int, data': seq<int>)
    requires StrictWeakOrder(less) && Kept(seen, k, less, data) && |data| >= k && less(v, top)
    requires data != [] && top in data && forall x :: x in data ==> !less(top, x)
    requires multiset(data') == multiset(data) - multiset{top} + multiset{v}
    ensures Kept(seen + [v], k, less, data')
  {
    ReplaceKeeps(multiset(seen), multiset(data), multiset(data) - multiset{top}, top, v, less);
    AboveZeroSplit(seen, v, less);
    MultisetSize(data', multiset(data) - multiset{top} + multiset{v});
    forall x | k < 1 && x in data' ensures less(x, 0) {
      assert x in multiset(data');
      assert x == v || x in multiset(data);
    }
  }

  // The empty Peek: an element that ranks above the zero value gets in although k <= 0.
  lemma KeptAdmits(seen: seq<int>, v: int, k: int, less: (int, int) -> bool, data': seq<int>)
    requires StrictWeakOrder(less) && Kept(seen, k, less, []) && k <= 0 && less(v, 0)
    requires multiset(data') == multiset{v}
    ensures Kept(seen + [v], k, less, data')
  {
    AboveZeroSplit(seen, v, less);
    MultisetSize(data', multiset{v});
    var all := multiset(seen + [v]);
    forall x, y | x in multiset(data') && y in all - multiset(data') ensures !less(y, x) {
      assert x == v && y in multiset(seen);
      var i :| 0 <= i < |seen| && seen[i] == y;
    }
    forall x | x in data' ensures less(x, 0) {
      assert x in multiset(data');
    }
  }

  // One turn of TopK's loop.
  method Offer(h: Heap<int>, v: int, k: int, less: (int, int) -> bool, ghost seen: seq<int>)
    requires StrictWeakOrder(less) && h.Valid() && h.less == Flip(less) && h.zero == 0
    requires Kept(seen, k, less, h.data)
    modifies h
    ensures h.Valid() && Kept(seen + [v], k, less, h.data)
  {
    ghost var before := h.data;
    if |h.data| < k {
      h.Push(v);
      KeptGrows(seen, v, k, less, before, h.data);
      return;
    }
    var top, _ := h.Peek();
    if less(v, top) {
      var _, _ := h.Pop();
      h.Push(v);
      if before == [] {
        KeptAdmits(seen, v, k, less, h.data);
      } else {
        KeptReplaces(seen, v, k, less, before, top, h.data);
      }
    } else {
      KeptSkips(seen, v, k, less, before, top);
    }
  }

  // TopK's first half: a heap of the keepers with the weakest on top.
  method Keep(input: seq<int>, k: int, less: (int, int) -> bool) returns (h: Heap<int>)
    requires StrictWeakOrder(less)
    ensures fresh(h) && h.Valid() && h.less == Flip(less)
    ensures Kept(input, k, less, h.data)
  {
    FlipOrders(less);
    h := new Heap(Flip(less), 0);
    for i := 0 to |input|
      invariant fresh(h) && h.Valid() && h.less == Flip(less) && h.zero == 0
      invariant Kept(input[..i], k, less, h.data)
    {
      assert input[..i + 1] == input[..i] + [input[i]];
      Offer(h, input[i], k, less, input[..i]);
    }
    assert input[..|input|] == input;
  }

  // "At most k elements" holds of what TopK returns exactly when k >= 1 or nothing ranks above the zero value.
  lemma TopKRespectsKIff(input: seq<int>, k: int, less: (int, int) -> bool, out: seq<int>)
    requires IsTop(input, Min(EffectiveK(input, k, less), |input|), less, out)
    ensures |out| <= (if k < 0 then 0 else k) <==> k >= 1 || !SomeAboveZero(input, less)
  {
  }

  // For k >= 1 the k best elements (all of them if there are fewer), best first. For k <= 0 the result is empty
  // unless some element ranks above the zero value; then it is the single best element.
  method TopK(input: seq<int>, k: int, less: (int, int) -> bool) returns (out: seq<int>)
    requires StrictWeakOrder(less)
    ensures IsTop(input, Min(EffectiveK(input, k, less), |input|), less, out)
    ensures |out| <= (if k < 0 then 0 else k) <==> k >= 1 || !SomeAboveZero(input, less)
  {
    var h := Keep(input, k, less);
    ghost var kept := h.data;
    out := Drain(h, less);
    MultisetSize(out, multiset(kept));
    TopKRespectsKIff(input, k, less, out);
  }

  lemma KeptNotBelow(all: multiset<int>, kept: multiset<int>, less: (int, int) -> bool, x: int, y: int)
    requires Keeps(all, kept, less) && x in kept && less(y, x)
    ensures all[y] == kept[y]
  {
  }

  // Whatever ranks strictly above b[i] is kept, and stands before position i.
  lemma AboveStandsBefore(all: multiset<int>, less: (int, int) -> bool, b: seq<int>, i: nat, x: int)
    requires StrictWeakOrder(less) && Keeps(all, multiset(b), less) && BestFirst(b, less)
    requires i < |b| && less(x, b[i])
    ensures all[x] <= multiset(b[..i])[x]
  {
    assert b == b[..i] + b[i..];
    forall j | i <= j < |b| ensures b[j] != x {
      assert i == j || !less(b[j], b[i]);
    }
    assert x !in b[i..];
    KeptNotBelow(all, multiset(b), less, b[i], x);
  }

  lemma SubMultisetSize(a: multiset<int>, b: multiset<int>)
    requires forall x :: x in a ==> a[x] <= b[x]
    ensures |a| <= |b|
  {
    forall x ensures a[x] <= b[x] {
      assert x in a || a[x] == 0;
    }
    assert a <= b;
    assert b == a + (b - a);
  }

  // The promise determines the answer up to ties: position by position, two answers rank equal.
  lemma TopIsUnique(input: seq<int>, size: nat, less: (int, int) -> bool, a: seq<int>, b: seq<int>, i: nat)
    requires StrictWeakOrder(less) && IsTop(input, size, less, a) && IsTop(input, size, less, b) && i < size
    ensures !less(a[i], b[i])
  {
    if less(a[i], b[i]) {
      var best := a[..i + 1];
      assert a == best + a[i + 1..];
      forall x | x in multiset(best) ensures multiset(best)[x] <= multiset(b[..i])[x] {
        var j :| 0 <= j <= i && a[j] == x;
        assert less(x, b[i]) by {
          assert j < i ==> !less(a[i], a[j]);
        }
        AboveStandsBefore(multiset(input), less, b, i, x);
        assert multiset(best)[x] <= multiset(a)[x] <= multiset(input)[x];
      }
      SubMultisetSize(multiset(best), multiset(b[..i]));
      assert false;
    }
  }
}
