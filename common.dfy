/**
 * Values that may be absent, as Python's `None` or a missing dictionary key,
 * and the two list walks the program repeats: keep the items that pass a
 * test, and take the first item that passes.
 */
module Common {

  datatype Option<+T> = None | Some(value: T) {

    function GetOr(default: T): T {
      match this
      case Some(v) => v
      case None => default
    }
  }

  /** The items of `xs` that pass `keep`, in order (a loop appending to a list). */
  function Filter<T>(xs: seq<T>, keep: T -> bool): seq<T> {
    if xs == [] then []
    else
      var init := Filter(xs[..|xs| - 1], keep);
      if keep(xs[|xs| - 1]) then init + [xs[|xs| - 1]] else init
  }

  /** One more item of the loop. */
  lemma FilterSnoc<T>(xs: seq<T>, keep: T -> bool, k: nat)
    requires k < |xs|
    ensures Filter(xs[..k + 1], keep) == if keep(xs[k]) then Filter(xs[..k], keep) + [xs[k]] else Filter(xs[..k], keep)
  {
    assert xs[..k + 1][..k] == xs[..k];
  }

  /** An item is kept exactly when it is there and passes. */
  lemma {:induction false} FilterElements<T>(xs: seq<T>, keep: T -> bool)
    ensures forall x :: x in Filter(xs, keep) <==> x in xs && keep(x)
  {
    if xs != [] {
      var init := xs[..|xs| - 1];
      FilterElements(init, keep);
      assert xs == init + [xs[|xs| - 1]];
    }
  }

  /** Nothing is kept when nothing passes. */
  lemma {:induction false} FilterNone<T>(xs: seq<T>, keep: T -> bool)
    requires forall x :: x in xs ==> !keep(x)
    ensures Filter(xs, keep) == []
  {
    if xs != [] {
      FilterNone(xs[..|xs| - 1], keep);
    }
  }

  /** The first item that passes `keep` (a loop returning from inside). */
  function FirstWhere<T>(xs: seq<T>, keep: T -> bool): (r: Option<T>)
    ensures r.Some? ==> r.value in xs && keep(r.value)
    ensures r.None? <==> forall x :: x in xs ==> !keep(x)
  {
    if xs == [] then None
    else if keep(xs[0]) then Some(xs[0])
    else FirstWhere(xs[1..], keep)
  }

  /** What is found sits at some position with no passing item before it. */
  lemma {:induction false} FirstWhereIsFirst<T>(xs: seq<T>, keep: T -> bool) returns (i: nat)
    requires FirstWhere(xs, keep).Some?
    ensures i < |xs| && xs[i] == FirstWhere(xs, keep).value
    ensures forall j :: 0 <= j < i ==> !keep(xs[j])
  {
    if keep(xs[0]) {
      i := 0;
    } else {
      var k := FirstWhereIsFirst(xs[1..], keep);
      i := k + 1;
      assert xs[i] == xs[1..][k];
      forall j | 0 <= j < i
        ensures !keep(xs[j])
      {
        if j > 0 {
          assert xs[j] == xs[1..][j - 1];
        }
      }
    }
  }

  /** A passing item with no passing item before it is the one found. */
  lemma {:induction false} FirstWhereAt<T>(xs: seq<T>, keep: T -> bool, k: nat)
    requires k < |xs| && keep(xs[k])
    requires forall j :: 0 <= j < k ==> !keep(xs[j])
    ensures FirstWhere(xs, keep) == Some(xs[k])
  {
    if k > 0 {
      assert !keep(xs[0]);
      forall j | 0 <= j < k - 1
        ensures !keep(xs[1..][j])
      {
        assert xs[1..][j] == xs[j + 1];
      }
      FirstWhereAt(xs[1..], keep, k - 1);
    }
  }
}
