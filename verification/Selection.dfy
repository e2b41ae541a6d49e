/**
 Stable selection: the elements of a sequence that a function sends to one place, in
 order, and how the selections change when some elements are sent elsewhere.
 */
module Selection {

  function Select<T, P(==)>(xs: seq<T>, at: T -> P, p: P): seq<T>
  {
    if xs == [] then []
    else
      var last := xs[|xs| - 1];
      Select(xs[..|xs| - 1], at, p) + (if at(last) == p then [last] else [])
  }

  function Map<T, U>(xs: seq<T>, f: T -> U): (ys: seq<U>)
    ensures |ys| == |xs|
    ensures forall k :: 0 <= k < |ys| ==> ys[k] == f(xs[k])
  {
    seq(|xs|, k requires 0 <= k < |xs| => f(xs[k]))
  }

  lemma SelectSnoc<T, P>(xs: seq<T>, x: T, at: T -> P, p: P)
    ensures Select(xs + [x], at, p) == Select(xs, at, p) + (if at(x) == p then [x] else [])
  {
    assert (xs + [x])[..|xs|] == xs;
  }

  lemma {:induction false} SelectAgrees<T, P, Q>(xs: seq<T>, f: T -> P, p: P, g: T -> Q, q: Q)
    requires forall x :: x in xs ==> (f(x) == p <==> g(x) == q)
    ensures Select(xs, f, p) == Select(xs, g, q)
  {
    if xs != [] {
      SelectAgrees(xs[..|xs| - 1], f, p, g, q);
      assert xs[|xs| - 1] in xs;
    }
  }

  lemma {:induction false} SelectNone<T, P>(xs: seq<T>, at: T -> P, p: P)
    requires forall x :: x in xs ==> at(x) != p
    ensures Select(xs, at, p) == []
  {
    if xs != [] {
      SelectNone(xs[..|xs| - 1], at, p);
      assert xs[|xs| - 1] in xs;
    }
  }

  lemma {:induction false} SelectMembers<T, P>(xs: seq<T>, at: T -> P, p: P)
    ensures forall x :: x in Select(xs, at, p) ==> x in xs && at(x) == p
    ensures forall x :: x in xs && at(x) == p ==> x in Select(xs, at, p)
  {
    if xs != [] {
      var rest, last := xs[..|xs| - 1], xs[|xs| - 1];
      SelectMembers(rest, at, p);
      assert xs == rest + [last];
    }
  }

  /** Selecting after a map is mapping a selection, when the map keeps places. */
  lemma {:induction false} SelectMap<T, U, P>(xs: seq<T>, m: T -> U, f: T -> P, g: U -> P, p: P)
    requires forall x :: x in xs ==> g(m(x)) == f(x)
    ensures Select(Map(xs, m), g, p) == Map(Select(xs, f, p), m)
  {
    if xs != [] {
      var rest, last := xs[..|xs| - 1], xs[|xs| - 1];
      SelectMap(rest, m, f, g, p);
      assert Map(xs, m) == Map(rest, m) + [m(last)];
      SelectSnoc(Map(rest, m), m(last), g, p);
      assert last in xs;
      assert Map(Select(xs, f, p), m) == Map(Select(rest, f, p), m) + (if f(last) == p then [m(last)] else []);
    }
  }

  /** Selecting first by a weaker condition changes nothing. */
  lemma {:induction false} SelectTwice<T, P, Q>(xs: seq<T>, f: T -> P, c: P, g: T -> Q, p: Q)
    requires forall x :: x in xs && g(x) == p ==> f(x) == c
    ensures Select(Select(xs, f, c), g, p) == Select(xs, g, p)
  {
    if xs != [] {
      var rest, last := xs[..|xs| - 1], xs[|xs| - 1];
      SelectTwice(rest, f, c, g, p);
      assert last in xs;
      if f(last) == c {
        SelectSnoc(Select(rest, f, c), last, g, p);
      } else {
        assert Select(xs, f, c) == Select(rest, f, c);
      }
    }
  }

  /**
   Sending the elements of place `c` on by `g`, behind whatever is at `p` already, gives the
   selection by `g`, provided `p` was empty or nothing arrives there.
   */
  lemma Resend<T, P>(xs: seq<T>, f: T -> P, g: T -> P, c: P, p: P)
    requires forall x :: x in xs && f(x) != c ==> g(x) == f(x)
    requires forall x :: x in xs && f(x) == c ==> g(x) != c
    requires (forall x :: x in xs ==> f(x) != p) || (forall x :: x in xs && f(x) == c ==> g(x) != p)
    ensures Select(xs, g, p) ==
      (if p == c then [] else Select(xs, f, p)) + Select(Select(xs, f, c), g, p)
  {
    SelectMembers(xs, f, c);
    if p == c {
      SelectNone(xs, g, p);
      SelectNone(Select(xs, f, c), g, p);
    } else if forall x :: x in xs ==> f(x) != p {
      SelectNone(xs, f, p);
      SelectTwice(xs, f, c, g, p);
    } else {
      SelectNone(Select(xs, f, c), g, p);
      SelectAgrees(xs, f, p, g, p);
    }
  }

  lemma {:induction false} SelectConcat<T, P>(xs: seq<T>, ys: seq<T>, at: T -> P, p: P)
    ensures Select(xs + ys, at, p) == Select(xs, at, p) + Select(ys, at, p)
  {
    if ys == [] {
      assert xs + ys == xs;
    } else {
      var rest, last := ys[..|ys| - 1], ys[|ys| - 1];
      SelectConcat(xs, rest, at, p);
      assert xs + ys == (xs + rest) + [last] && ys == rest + [last];
      SelectSnoc(xs + rest, last, at, p);
      SelectSnoc(rest, last, at, p);
    }
  }

  /** Two selections commute. */
  lemma {:induction false} SelectSwap<T, P, Q>(xs: seq<T>, f: T -> P, p: P, g: T -> Q, q: Q)
    ensures Select(Select(xs, f, p), g, q) == Select(Select(xs, g, q), f, p)
  {
    if xs != [] {
      var rest, last := xs[..|xs| - 1], xs[|xs| - 1];
      SelectSwap(rest, f, p, g, q);
      if f(last) == p {
        SelectSnoc(Select(rest, f, p), last, g, q);
      } else {
        assert Select(xs, f, p) == Select(rest, f, p);
      }
      if g(last) == q {
        SelectSnoc(Select(rest, g, q), last, f, p);
      } else {
        assert Select(xs, g, q) == Select(rest, g, q);
      }
    }
  }
}
