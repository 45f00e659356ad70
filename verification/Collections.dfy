/** Small pieces shared by the models: optional values, the order of iteration, and filtered sequences. */
module Collections {

  /** The value used in place of a null pointer, a zero id or an absent map entry. */
  datatype Option<+T> = None | Some(value: T)

  /** The next element of an iteration.  The program iterates in key order; the models never depend on it. */
  method Pick<T(==)>(s: set<T>) returns (x: T)
    requires s != {}
    ensures x in s
  {
    x :| x in s;
  }

  // ---------------------------------------------------------------- filtered sequences

  /** `ix` are the positions in `s` of exactly the elements that are kept, in order, and `r` has these elements. */
  ghost predicate PicksAt<T>(ix: seq<nat>, r: seq<T>, s: seq<T>, keep: T -> bool) {
    && |ix| == |r|
    && (forall j, k :: 0 <= j < k < |ix| ==> ix[j] < ix[k])
    && (forall k :: 0 <= k < |ix| ==> ix[k] < |s| && r[k] == s[ix[k]])
    && (forall i :: 0 <= i < |s| ==> (keep(s[i]) <==> i in ix))
  }

  /** `r` consists of the elements of `s` that are kept, each as often as it occurs and in the same order. */
  ghost predicate Picks<T(!new)>(r: seq<T>, s: seq<T>, keep: T -> bool) {
    exists ix: seq<nat> :: PicksAt(ix, r, s, keep)
  }

  lemma PicksNothing<T(!new)>(keep: T -> bool)
    ensures Picks([], [], keep)
  {
    var ix: seq<nat> := [];
    assert PicksAt(ix, [], [], keep);
  }

  lemma PicksMore<T(!new)>(r: seq<T>, s: seq<T>, keep: T -> bool, x: T)
    requires Picks(r, s, keep)
    ensures keep(x) ==> Picks(r + [x], s + [x], keep)
    ensures !keep(x) ==> Picks(r, s + [x], keep)
  {
    var ix: seq<nat> :| PicksAt(ix, r, s, keep);
    if keep(x) {
      AtMore(ix, r, s, keep, x);
    } else {
      AtSkip(ix, r, s, keep, x);
    }
  }

  lemma AtMore<T>(ix: seq<nat>, r: seq<T>, s: seq<T>, keep: T -> bool, x: T)
    requires PicksAt(ix, r, s, keep) && keep(x)
    ensures PicksAt(ix + [|s|], r + [x], s + [x], keep)
  {
    var all := ix + [|s|];
    forall i | 0 <= i < |s + [x]| ensures keep((s + [x])[i]) <==> i in all {
      assert i in all <==> i in ix || i == |s|;
    }
  }

  lemma AtSkip<T>(ix: seq<nat>, r: seq<T>, s: seq<T>, keep: T -> bool, x: T)
    requires PicksAt(ix, r, s, keep) && !keep(x)
    ensures PicksAt(ix, r, s + [x], keep)
  {
    assert |s| !in ix;
  }

  /** With two tests that agree on the sequence the same elements are kept. */
  lemma PicksSame<T(!new)>(r: seq<T>, s: seq<T>, keep: T -> bool, other: T -> bool)
    requires Picks(r, s, keep) && forall x :: x in s ==> keep(x) == other(x)
    ensures Picks(r, s, other)
  {
    var ix: seq<nat> :| PicksAt(ix, r, s, keep);
    assert PicksAt(ix, r, s, other);
  }

  /** There is only one such sequence. */
  lemma PicksOnce<T(!new)>(r: seq<T>, t: seq<T>, s: seq<T>, keep: T -> bool)
    requires Picks(r, s, keep) && Picks(t, s, keep)
    ensures r == t
  {
    var a: seq<nat> :| PicksAt(a, r, s, keep);
    var b: seq<nat> :| PicksAt(b, t, s, keep);
    assert forall i :: i in a <==> i in b;
    SameIncreasing(a, b);
  }

  lemma {:induction false} SameIncreasing(a: seq<nat>, b: seq<nat>)
    requires forall j, k :: 0 <= j < k < |a| ==> a[j] < a[k]
    requires forall j, k :: 0 <= j < k < |b| ==> b[j] < b[k]
    requires forall i :: i in a <==> i in b
    ensures a == b
  {
    FirstIsIn(a);
    FirstIsIn(b);
    if a != [] {
      assert a[|a| - 1] in b;
      var n, m := |a| - 1, |b| - 1;
      assert b[m] in a;
      assert a[n] == b[m];
      assert forall i :: i in a <==> i in a[..n] || i == a[n];
      assert forall i :: i in b <==> i in b[..m] || i == b[m];
      SameIncreasing(a[..n], b[..m]);
    }
  }

  lemma FirstIsIn(s: seq<nat>)
    ensures s != [] ==> s[0] in s
  {
  }
}
