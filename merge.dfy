/** The left merge of two data frames on one integer key column (`how='left'`). */
module Merge {
  import opened Wrappers
  import opened Seqs

  /** The rows of `right` whose key is `k`, in their order. */
  function Matching<R>(right: seq<R>, rkey: R -> int, k: int): (ms: seq<R>)
    ensures forall x :: x in ms ==> x in right && rkey(x) == k
    ensures forall x :: x in right && rkey(x) == k ==> x in ms
  {
    FilterMembershipAll(right, x => rkey(x) == k);
    Filter(right, x => rkey(x) == k)
  }

  /** The first row of `right` whose key is `k`, if there is one. */
  function Lookup<R>(right: seq<R>, rkey: R -> int, k: int): (r: Option<R>)
    ensures r.Some? ==> r.value in right && rkey(r.value) == k
    ensures r.None? ==> forall x :: x in right ==> rkey(x) != k
  {
    var ms := Matching(right, rkey, k);
    if ms == [] then None else Some(ms[0])
  }

  /** The output rows of one left row: one per matching right row, or one with nothing joined. */
  function MergeRow<L, R>(l: L, right: seq<R>, lkey: L -> int, rkey: R -> int): (out: seq<(L, Option<R>)>)
    ensures var ms := Matching(right, rkey, lkey(l));
      |out| == if ms == [] then 1 else |ms|
    ensures forall i :: 0 <= i < |out| ==>
              && out[i].0 == l
              && (out[i].1.Some? ==> out[i].1.value in right && rkey(out[i].1.value) == lkey(l))
              && (out[i].1.None? ==> forall x :: x in right ==> rkey(x) != lkey(l))
    ensures forall x :: x in right && rkey(x) == lkey(l) ==> (l, Some(x)) in out
  {
    var ms := Matching(right, rkey, lkey(l));
    if ms == [] then [(l, None)]
    else
      var out := seq(|ms|, i requires 0 <= i < |ms| => (l, Some(ms[i])));
      assert forall x :: x in ms ==> (l, Some(x)) in out by {
        forall x | x in ms ensures (l, Some(x)) in out {
          var j :| 0 <= j < |ms| && ms[j] == x;
          assert out[j] == (l, Some(x));
        }
      }
      out
  }

  /** The left merge: every left row, in order, each followed by what it joined to. */
  function LeftMerge<L, R>(left: seq<L>, right: seq<R>, lkey: L -> int, rkey: R -> int): (out: seq<(L, Option<R>)>)
    ensures |out| >= |left|
    ensures forall p :: p in out ==>
              && p.0 in left
              && (p.1.Some? ==> p.1.value in right && rkey(p.1.value) == lkey(p.0))
              && (p.1.None? ==> forall x :: x in right ==> rkey(x) != lkey(p.0))
    decreases |left|
  {
    if left == [] then []
    else MergeRow(left[0], right, lkey, rkey) + LeftMerge(left[1..], right, lkey, rkey)
  }

  /** Each output row of a left row is an output row of the whole merge. */
  lemma {:induction false} MergeRowInLeftMerge<L, R>(left: seq<L>, right: seq<R>, lkey: L -> int, rkey: R -> int,
                                                     l: L, p: (L, Option<R>))
    requires l in left && p in MergeRow(l, right, lkey, rkey)
    ensures p in LeftMerge(left, right, lkey, rkey)
    decreases |left|
  {
    if l != left[0] {
      assert l in left[1..];
      MergeRowInLeftMerge(left[1..], right, lkey, rkey, l, p);
    }
  }

  /**
   * Nothing is lost: a left row meets every right row with its key, and a
   * left row without any is still there, joined to nothing.
   */
  lemma LeftMergeComplete<L, R>(left: seq<L>, right: seq<R>, lkey: L -> int, rkey: R -> int, l: L)
    requires l in left
    ensures forall x :: x in right && rkey(x) == lkey(l) ==> (l, Some(x)) in LeftMerge(left, right, lkey, rkey)
    ensures (forall x :: x in right ==> rkey(x) != lkey(l)) ==> (l, None) in LeftMerge(left, right, lkey, rkey)
  {
    forall x | x in right && rkey(x) == lkey(l) ensures (l, Some(x)) in LeftMerge(left, right, lkey, rkey) {
      MergeRowInLeftMerge(left, right, lkey, rkey, l, (l, Some(x)));
    }
    if forall x :: x in right ==> rkey(x) != lkey(l) {
      FilterNone(right, x => rkey(x) == lkey(l));
      assert Matching(right, rkey, lkey(l)) == [];
      assert MergeRow(l, right, lkey, rkey) == [(l, None)];
      MergeRowInLeftMerge(left, right, lkey, rkey, l, (l, None));
    }
  }

  /** Every left row appears in the left merge, whatever the right keys. */
  lemma LeftMergeCovers<L, R>(left: seq<L>, right: seq<R>, lkey: L -> int, rkey: R -> int)
    ensures forall l :: l in left ==>
              exists i :: 0 <= i < |LeftMerge(left, right, lkey, rkey)| && LeftMerge(left, right, lkey, rkey)[i].0 == l
  {
    var out := LeftMerge(left, right, lkey, rkey);
    forall l | l in left ensures exists i :: 0 <= i < |out| && out[i].0 == l {
      LeftMergeComplete(left, right, lkey, rkey, l);
      var p: (L, Option<R>);
      if x :| x in right && rkey(x) == lkey(l) {
        p := (l, Some(x));
      } else {
        p := (l, None);
      }
      assert p in out;
      var i :| 0 <= i < |out| && out[i] == p;
      assert out[i].0 == l;
    }
    assert out == LeftMerge(left, right, lkey, rkey);
  }

  /** No two rows share a key. */
  predicate UniqueKeys<R>(right: seq<R>, rkey: R -> int)
  {
    forall i, j :: 0 <= i < j < |right| ==> rkey(right[i]) != rkey(right[j])
  }

  /** Against unique keys at most one right row matches. */
  lemma {:induction false} MatchingUnique<R>(right: seq<R>, rkey: R -> int, k: int)
    requires UniqueKeys(right, rkey)
    ensures |Matching(right, rkey, k)| <= 1
    decreases |right|
  {
    if right != [] {
      var rest := right[1..];
      assert UniqueKeys(rest, rkey);
      MatchingUnique(rest, rkey, k);
      if rkey(right[0]) == k {
        forall x | x in rest ensures rkey(x) != k {
          var j :| 0 <= j < |rest| && rest[j] == x;
          assert rkey(right[0]) != rkey(right[j + 1]);
        }
        FilterNone(rest, x => rkey(x) == k);
      }
    }
  }

  /**
   * Against unique keys the left merge keeps the row count and the order of
   * the left table, and joins each left row to the right row with its key,
   * or to nothing.
   */
  lemma {:induction false} LeftMergeUnique<L, R>(left: seq<L>, right: seq<R>, lkey: L -> int, rkey: R -> int)
    requires UniqueKeys(right, rkey)
    ensures |LeftMerge(left, right, lkey, rkey)| == |left|
    ensures forall i :: 0 <= i < |left| ==>
              LeftMerge(left, right, lkey, rkey)[i] == (left[i], Lookup(right, rkey, lkey(left[i])))
    decreases |left|
  {
    if left != [] {
      LeftMergeUnique(left[1..], right, lkey, rkey);
      MatchingUnique(right, rkey, lkey(left[0]));
      var head := MergeRow(left[0], right, lkey, rkey);
      assert head == [(left[0], Lookup(right, rkey, lkey(left[0])))];
    }
  }
}
