/** `Array.prototype.filter` over sequences, with the facts the pages'
    filters rely on: membership, order, and how filters compose. */
module Lists {
  /** The elements satisfying `p`, in order. */
  function Keep<T(!new)>(qs: seq<T>, p: T -> bool): (r: seq<T>)
    ensures |r| <= |qs|
    ensures forall q :: q in r <==> q in qs && p(q)
  {
    if qs == [] then []
    else Keep(qs[..|qs| - 1], p) + (if p(qs[|qs| - 1]) then [qs[|qs| - 1]] else [])
  }

  /** The positions `Keep` takes its elements from. */
  function KeptIndices<T>(qs: seq<T>, p: T -> bool): seq<nat>
  {
    if qs == [] then []
    else KeptIndices(qs[..|qs| - 1], p) + (if p(qs[|qs| - 1]) then [|qs| - 1] else [])
  }

  /** The filter is an order-preserving subsequence: the kept elements are
      those at strictly increasing positions of the list. */
  lemma {:induction false} KeepIsSubsequence<T(!new)>(qs: seq<T>, p: T -> bool)
    ensures var r, idx := Keep(qs, p), KeptIndices(qs, p);
            && |idx| == |r|
            && (forall k :: 0 <= k < |idx| ==> idx[k] < |qs| && r[k] == qs[idx[k]])
            && (forall k, l :: 0 <= k < l < |idx| ==> idx[k] < idx[l])
  {
    if qs != [] {
      var init := qs[..|qs| - 1];
      KeepIsSubsequence(init, p);
      var r0, i0 := Keep(init, p), KeptIndices(init, p);
      var r, idx := Keep(qs, p), KeptIndices(qs, p);
      forall k | 0 <= k < |i0| ensures idx[k] == i0[k] && r[k] == r0[k] && i0[k] < |init| {
      }
      forall k | 0 <= k < |idx| ensures idx[k] < |qs| && r[k] == qs[idx[k]] {
        if k < |i0| {
          assert qs[idx[k]] == init[i0[k]];
        }
      }
    }
  }

  lemma {:induction false} KeepAppend<T(!new)>(a: seq<T>, b: seq<T>, p: T -> bool)
    ensures Keep(a + b, p) == Keep(a, p) + Keep(b, p)
    decreases |b|
  {
    if b == [] {
      assert a + b == a;
    } else {
      var b' := b[..|b| - 1];
      assert (a + b)[..|a + b| - 1] == a + b';
      KeepAppend(a, b', p);
    }
  }

  /** The conjunction of two conditions. */
  function Both<T>(p1: T -> bool, p2: T -> bool): T -> bool
  {
    x => p1(x) && p2(x)
  }

  /** Filtering twice is filtering once by both conditions. */
  lemma {:induction false} KeepKeep<T(!new)>(qs: seq<T>, p1: T -> bool, p2: T -> bool)
    ensures Keep(Keep(qs, p1), p2) == Keep(qs, Both(p1, p2))
  {
    if qs != [] {
      var init := qs[..|qs| - 1];
      var last := qs[|qs| - 1];
      KeepKeep(init, p1, p2);
      KeepAppend(Keep(init, p1), if p1(last) then [last] else [], p2);
    }
  }

  /** Filters by conditions that agree on every element give the same list. */
  lemma {:induction false} KeepSame<T(!new)>(qs: seq<T>, p1: T -> bool, p2: T -> bool)
    requires forall q :: p1(q) == p2(q)
    ensures Keep(qs, p1) == Keep(qs, p2)
  {
    if qs != [] {
      KeepSame(qs[..|qs| - 1], p1, p2);
    }
  }

  /** A filter every element passes keeps the whole list. */
  lemma {:induction false} KeepEverything<T(!new)>(qs: seq<T>, p: T -> bool)
    requires forall i :: 0 <= i < |qs| ==> p(qs[i])
    ensures Keep(qs, p) == qs
  {
    if qs != [] {
      var init := qs[..|qs| - 1];
      forall i | 0 <= i < |init| ensures p(init[i]) {
        assert init[i] == qs[i];
      }
      KeepEverything(init, p);
      assert init + [qs[|qs| - 1]] == qs;
    }
  }
}
