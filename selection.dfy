/**
 * Order-preserving selection: keep the elements of a sequence that pass a test
 * and transform each kept one. Both the save path and the render path of the
 * plugin are loops of this shape, so the facts about it are proved once here.
 */
module Selection {

  /** The identity transformation, for a selection that only filters. */
  function Id<A>(): A -> A {
    x => x
  }

  /** The conjunction of two tests. */
  function Both<A>(p: A -> bool, q: A -> bool): A -> bool {
    x => p(x) && q(x)
  }

  /** f of every element of s that passes keep, in the order of s. */
  function FilterMap<A, B>(s: seq<A>, keep: A -> bool, f: A -> B): (r: seq<B>)
    ensures |r| <= |s|
  {
    if |s| == 0 then []
    else FilterMap(s[..|s| - 1], keep, f) + (if keep(s[|s| - 1]) then [f(s[|s| - 1])] else [])
  }

  /** The elements of s that pass keep, in the order of s. */
  function Filter<A>(s: seq<A>, keep: A -> bool): (r: seq<A>)
    ensures |r| <= |s|
  {
    FilterMap(s, keep, Id())
  }

  /** The positions of s whose element passes keep, in ascending order. */
  function Positions<A>(s: seq<A>, keep: A -> bool): (r: seq<nat>)
    ensures forall k :: 0 <= k < |r| ==> r[k] < |s|
  {
    if |s| == 0 then []
    else Positions(s[..|s| - 1], keep) + (if keep(s[|s| - 1]) then [|s| - 1] else [])
  }

  ghost predicate Ascending(idx: seq<nat>) {
    forall j, k :: 0 <= j < k < |idx| ==> idx[j] < idx[k]
  }

  /** Positions lists every passing position, and only those, each once and in order. */
  lemma {:induction false} PositionsExact<A>(s: seq<A>, keep: A -> bool)
    ensures Ascending(Positions(s, keep))
    ensures forall i :: 0 <= i < |s| ==> (i in Positions(s, keep) <==> keep(s[i]))
    ensures forall k :: 0 <= k < |Positions(s, keep)| ==> keep(s[Positions(s, keep)[k]])
  {
    if |s| > 0 {
      var t := s[..|s| - 1];
      PositionsExact(t, keep);
      assert forall i :: 0 <= i < |t| ==> t[i] == s[i];
    }
  }

  /** The k-th output of FilterMap is f of the element at the k-th passing position. */
  lemma {:induction false} FilterMapAt<A, B>(s: seq<A>, keep: A -> bool, f: A -> B)
    ensures |FilterMap(s, keep, f)| == |Positions(s, keep)|
    ensures forall k :: 0 <= k < |Positions(s, keep)| ==>
              FilterMap(s, keep, f)[k] == f(s[Positions(s, keep)[k]])
  {
    if |s| > 0 {
      var t := s[..|s| - 1];
      FilterMapAt(t, keep, f);
      assert forall i :: 0 <= i < |t| ==> t[i] == s[i];
    }
  }

  /** Selecting from a concatenation selects from each part. */
  lemma {:induction false} FilterMapAppend<A, B>(a: seq<A>, b: seq<A>, keep: A -> bool, f: A -> B)
    ensures FilterMap(a + b, keep, f) == FilterMap(a, keep, f) + FilterMap(b, keep, f)
  {
    if |b| > 0 {
      var b' := b[..|b| - 1];
      FilterMapAppend(a, b', keep, f);
      assert (a + b)[..|a + b| - 1] == a + b';
    } else {
      assert a + b == a;
    }
  }

  /** Filtering by p and then selecting by q is one selection by p and q together. */
  lemma {:induction false} FilterThenFilterMap<A, B>(s: seq<A>, p: A -> bool, q: A -> bool, f: A -> B)
    ensures FilterMap(Filter(s, p), q, f) == FilterMap(s, Both(p, q), f)
  {
    if |s| > 0 {
      var t, x := s[..|s| - 1], s[|s| - 1];
      FilterThenFilterMap(t, p, q, f);
      var tail := if p(x) then [x] else [];
      assert Filter(s, p) == Filter(t, p) + tail;
      FilterMapAppend(Filter(t, p), tail, q, f);
    }
  }

  /** A selection in which nothing passes is empty. */
  lemma {:induction false} NothingPasses<A, B>(s: seq<A>, keep: A -> bool, f: A -> B)
    requires forall i :: 0 <= i < |s| ==> !keep(s[i])
    ensures FilterMap(s, keep, f) == []
  {
    if |s| > 0 {
      NothingPasses(s[..|s| - 1], keep, f);
    }
  }
}
