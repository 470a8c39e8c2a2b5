/** Order-preserving filters and searches over sequences: the shape of every
    table query (DataFrame boolean mask, list comprehension with a guard,
    `list.index`) in the modelled code. */
module Seqs {
  import opened Wrappers

  /** The elements of `s` that satisfy `p`, in their order in `s`. */
  function Filter<T>(s: seq<T>, p: T -> bool): (r: seq<T>)
    ensures |r| <= |s|
    ensures forall x | x in r :: x in s && p(x)
    ensures forall i | 0 <= i < |s| && p(s[i]) :: s[i] in r
  {
    if s == [] then []
    else (if p(s[0]) then [s[0]] else []) + Filter(s[1..], p)
  }

  /** Filtering commutes with concatenation: the result keeps the relative
      order of the input, piece by piece. */
  lemma {:induction false} FilterAppend<T>(s: seq<T>, t: seq<T>, p: T -> bool)
    ensures Filter(s + t, p) == Filter(s, p) + Filter(t, p)
  {
    if s == [] {
      assert s + t == t;
    } else {
      assert (s + t)[1..] == s[1..] + t;
      FilterAppend(s[1..], t, p);
    }
  }

  /** Filtering by `p` and by its complement splits `s` in two: together the
      two results hold every element of `s` exactly as often as `s` does. */
  lemma {:induction false} FilterSplit<T>(s: seq<T>, p: T -> bool, q: T -> bool)
    requires forall x :: q(x) <==> !p(x)
    ensures |Filter(s, p)| + |Filter(s, q)| == |s|
    ensures multiset(Filter(s, p)) + multiset(Filter(s, q)) == multiset(s)
  {
    if s != [] {
      FilterSplit(s[1..], p, q);
      assert s == [s[0]] + s[1..];
    }
  }

  /** When one element passes, every passing element of `s` is that one. */
  lemma FilterSingleton<T>(s: seq<T>, p: T -> bool)
    requires |Filter(s, p)| == 1
    ensures forall x | x in s && p(x) :: x == Filter(s, p)[0]
  {
    forall x | x in s && p(x)
      ensures x == Filter(s, p)[0]
    {
      var i :| 0 <= i < |s| && s[i] == x;
    }
  }

  /** When nothing passes, no element of `s` satisfies `p`. */
  lemma FilterEmpty<T>(s: seq<T>, p: T -> bool)
    requires |Filter(s, p)| == 0
    ensures forall x | x in s :: !p(x)
  {
    forall x | x in s
      ensures !p(x)
    {
      var i :| 0 <= i < |s| && s[i] == x;
    }
  }

  /** Number of elements of `s` satisfying `p` (numpy's sum of a mask). */
  function Count<T>(s: seq<T>, p: T -> bool): nat
  {
    |Filter(s, p)|
  }

  /** The position of the first `x` in `s`, as Python's `list.index` finds it;
      `None` where `list.index` raises ValueError. */
  function IndexOf<T(==)>(s: seq<T>, x: T): (r: Option<nat>)
    ensures r.None? <==> x !in s
    ensures r.Some? ==> r.value < |s| && s[r.value] == x && x !in s[..r.value]
  {
    if s == [] then None
    else if s[0] == x then Some(0)
    else match IndexOf(s[1..], x)
      case None => None
      case Some(k) => Some(k + 1)
  }

  /** The distinct elements of `s`, each once, in order of first occurrence. */
  function Distinct<T(==)>(s: seq<T>): (r: seq<T>)
    ensures forall x | x in s :: x in r
    ensures forall x | x in r :: x in s
    ensures forall i, j | 0 <= i < j < |r| :: r[i] != r[j]
  {
    if s == [] then []
    else
      var rest := Distinct(s[..|s| - 1]);
      assert s == s[..|s| - 1] + [s[|s| - 1]];
      if s[|s| - 1] in rest then rest else rest + [s[|s| - 1]]
  }

  /** `n` copies of `x`. */
  function Copies<T>(x: T, n: nat): (r: seq<T>)
    ensures |r| == n
  {
    if n == 0 then [] else Copies(x, n - 1) + [x]
  }

  lemma {:induction false} CopiesAt<T>(x: T, n: nat, k: nat)
    requires k < n
    ensures Copies(x, n)[k] == x
  {
    if k < n - 1 {
      CopiesAt(x, n - 1, k);
      assert (Copies(x, n - 1) + [x])[k] == Copies(x, n - 1)[k];
    }
  }

  /** The pieces of `ss` one after the other. */
  function Concat<T>(ss: seq<seq<T>>): seq<T>
  {
    if ss == [] then [] else Concat(ss[..|ss| - 1]) + ss[|ss| - 1]
  }

  lemma ConcatSnoc<T>(ss: seq<seq<T>>, s: seq<T>)
    ensures Concat(ss + [s]) == Concat(ss) + s
  {
    assert (ss + [s])[..|ss|] == ss;
  }

  /** `i` blocks of `size` elements, counted block by block so that offsets
      stay linear; it is `i * size` (BlockStartIsProduct). */
  function BlockStart(i: nat, size: nat): nat
  {
    if i == 0 then 0 else BlockStart(i - 1, size) + size
  }

  lemma {:induction false} BlockStartIsProduct(i: nat, size: nat)
    ensures BlockStart(i, size) == i * size
  {
    if i > 0 {
      BlockStartIsProduct(i - 1, size);
      assert (i - 1) * size + size == i * size;
    }
  }

  /** Pieces of one length `size` concatenate to `|ss|` blocks of it. */
  lemma {:induction false} ConcatUniformLength<T>(ss: seq<seq<T>>, size: nat)
    requires forall i | 0 <= i < |ss| :: |ss[i]| == size
    ensures |Concat(ss)| == BlockStart(|ss|, size)
  {
    if ss != [] {
      ConcatUniformLength(ss[..|ss| - 1], size);
    }
  }

  /** With pieces of one length, offset `off` of piece `i` sits after `i`
      whole pieces. */
  lemma {:induction false} ConcatSlot<T>(ss: seq<seq<T>>, size: nat, i: nat, off: nat)
    requires forall j | 0 <= j < |ss| :: |ss[j]| == size
    requires i < |ss| && off < size
    ensures BlockStart(i, size) + off < |Concat(ss)|
    ensures Concat(ss)[BlockStart(i, size) + off] == ss[i][off]
  {
    var init := ss[..|ss| - 1];
    ConcatUniformLength(init, size);
    if i == |ss| - 1 {
      assert (Concat(init) + ss[i])[BlockStart(i, size) + off] == ss[i][off];
    } else {
      ConcatSlot(init, size, i, off);
      assert (Concat(init) + ss[|ss| - 1])[BlockStart(i, size) + off] == Concat(init)[BlockStart(i, size) + off];
    }
  }

  /** Every element of a concatenation comes from one of the pieces. */
  lemma {:induction false} ConcatMembers<T>(ss: seq<seq<T>>)
    ensures forall x | x in Concat(ss) :: exists i | 0 <= i < |ss| :: x in ss[i]
  {
    if ss != [] {
      var init := ss[..|ss| - 1];
      ConcatMembers(init);
      forall x | x in Concat(ss)
        ensures exists i | 0 <= i < |ss| :: x in ss[i]
      {
        if x in Concat(init) {
          var i :| 0 <= i < |init| && x in init[i];
          assert ss[i] == init[i];
        } else {
          assert x in ss[|ss| - 1];
        }
      }
    }
  }
}
