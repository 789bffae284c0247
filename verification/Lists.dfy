/** Lists without repetition, and removing an element from a list. */
module Lists {

  predicate Distinct<T(==)>(l: seq<T>) {
    forall i, j :: 0 <= i < j < |l| ==> l[i] != l[j]
  }

  // Every occurrence goes; the rest keeps its order.
  function Remove<T(==, !new)>(l: seq<T>, u: T): (r: seq<T>)
    ensures forall x :: x in r <==> x in l && x != u
    ensures |r| <= |l|
  {
    if l == [] then []
    else if l[0] == u then Remove(l[1..], u)
    else [l[0]] + Remove(l[1..], u)
  }

  lemma {:induction false} RemoveDistinct<T(!new)>(l: seq<T>, u: T)
    requires Distinct(l)
    ensures Distinct(Remove(l, u))
    ensures |Remove(l, u)| == if u in l then |l| - 1 else |l|
  {
    if l != [] {
      assert Distinct(l[1..]);
      RemoveDistinct(l[1..], u);
      if l[0] == u {
        assert u !in l[1..];
      } else {
        assert l[0] !in l[1..];
      }
    }
  }

  lemma {:induction false} RemoveNothing<T(!new)>(l: seq<T>, u: T)
    requires u !in l
    ensures Remove(l, u) == l
  {
    if l != [] {
      RemoveNothing(l[1..], u);
    }
  }

  lemma {:induction false} RemoveConcat<T(!new)>(a: seq<T>, b: seq<T>, u: T)
    ensures Remove(a + b, u) == Remove(a, u) + Remove(b, u)
  {
    if a == [] {
      assert a + b == b;
    } else {
      assert (a + b)[1..] == a[1..] + b;
      RemoveConcat(a[1..], b, u);
    }
  }

  // Elements of the shortened list keep their order.
  lemma {:induction false} RemoveKeepsOrder<T(!new)>(l: seq<T>, u: T, i: nat, j: nat)
    requires i < j < |Remove(l, u)|
    ensures exists p, q :: 0 <= p < q < |l| && l[p] == Remove(l, u)[i] && l[q] == Remove(l, u)[j]
  {
    if l[0] == u {
      RemoveKeepsOrder(l[1..], u, i, j);
      var p, q :| 0 <= p < q < |l[1..]| && l[1..][p] == Remove(l, u)[i] && l[1..][q] == Remove(l, u)[j];
      assert l[p + 1] == Remove(l, u)[i] && l[q + 1] == Remove(l, u)[j];
    } else if i == 0 {
      assert Remove(l, u)[j] in Remove(l[1..], u);
      var q :| 0 <= q < |l[1..]| && l[1..][q] == Remove(l, u)[j];
      assert l[0] == Remove(l, u)[0] && l[q + 1] == Remove(l, u)[j];
    } else {
      RemoveKeepsOrder(l[1..], u, i - 1, j - 1);
      var r := Remove(l[1..], u);
      var p, q :| 0 <= p < q < |l[1..]| && l[1..][p] == r[i - 1] && l[1..][q] == r[j - 1];
      assert l[p + 1] == Remove(l, u)[i] && l[q + 1] == Remove(l, u)[j];
    }
  }
}
