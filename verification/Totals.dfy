/** Sum, minimum and maximum of a list of numbers, as SQL and Python compute them. */
module Totals {

  function Sum(xs: seq<real>): real {
    if xs == [] then 0.0 else xs[0] + Sum(xs[1..])
  }

  function Min(xs: seq<real>): real
    requires xs != []
  {
    if |xs| == 1 || xs[0] <= Min(xs[1..]) then xs[0] else Min(xs[1..])
  }

  function Max(xs: seq<real>): real
    requires xs != []
  {
    if |xs| == 1 || xs[0] >= Max(xs[1..]) then xs[0] else Max(xs[1..])
  }

  lemma {:induction false} SumConcat(a: seq<real>, b: seq<real>)
    ensures Sum(a + b) == Sum(a) + Sum(b)
  {
    if a == [] {
      assert a + b == b;
    } else {
      SumConcat(a[1..], b);
      assert (a + b)[1..] == a[1..] + b;
    }
  }

  lemma {:induction false} MinConcat(a: seq<real>, b: seq<real>)
    requires a != [] && b != []
    ensures Min(a + b) == if Min(a) <= Min(b) then Min(a) else Min(b)
    ensures Max(a + b) == if Max(a) >= Max(b) then Max(a) else Max(b)
  {
    assert (a + b)[1..] == a[1..] + b;
    if |a| == 1 {
      assert a[1..] + b == b;
    } else {
      MinConcat(a[1..], b);
    }
  }

  /** The minimum is the member that no member is below, the maximum the one that none is above. */
  lemma {:induction false} MinBounds(xs: seq<real>)
    requires xs != []
    ensures Min(xs) in xs && Max(xs) in xs && forall x | x in xs :: Min(xs) <= x <= Max(xs)
  {
    if |xs| > 1 {
      MinBounds(xs[1..]);
      assert forall x | x in xs :: x == xs[0] || x in xs[1..];
    }
  }
}
