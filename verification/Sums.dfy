/** Finite sums over sets of ids. */
module Sums {

  ghost function Sum(s: set<string>, f: string -> int): int {
    if s == {} then 0 else var x :| x in s; f(x) + Sum(s - {x}, f)
  }

  /** Any element may be taken out first. */
  lemma {:induction false} SumTakeOut(s: set<string>, f: string -> int, x: string)
    requires x in s
    ensures Sum(s, f) == f(x) + Sum(s - {x}, f)
  {
    var y :| y in s && Sum(s, f) == f(y) + Sum(s - {y}, f);
    if y != x {
      SumTakeOut(s - {y}, f, x);
      SumTakeOut(s - {x}, f, y);
      assert s - {y} - {x} == s - {x} - {y};
    }
  }

  lemma {:induction false} SumAgree(s: set<string>, f: string -> int, g: string -> int)
    requires forall x :: x in s ==> f(x) == g(x)
    ensures Sum(s, f) == Sum(s, g)
  {
    if s != {} {
      var x :| x in s;
      SumTakeOut(s, f, x);
      SumTakeOut(s, g, x);
      SumAgree(s - {x}, f, g);
    }
  }

  lemma {:induction false} SumAtMost(s: set<string>, f: string -> int, g: string -> int)
    requires forall x :: x in s ==> f(x) <= g(x)
    ensures Sum(s, f) <= Sum(s, g)
  {
    if s != {} {
      var x :| x in s;
      SumTakeOut(s, f, x);
      SumTakeOut(s, g, x);
      SumAtMost(s - {x}, f, g);
    }
  }

  lemma {:induction false} SumNonNegative(s: set<string>, f: string -> int)
    requires forall x :: x in s ==> f(x) >= 0
    ensures Sum(s, f) >= 0
  {
    if s != {} {
      var x :| x in s;
      SumTakeOut(s, f, x);
      SumNonNegative(s - {x}, f);
    }
  }

  /** One summand changes. */
  lemma SumChange(s: set<string>, f: string -> int, g: string -> int, x: string)
    requires x in s && forall y :: y in s && y != x ==> f(y) == g(y)
    ensures Sum(s, g) == Sum(s, f) - f(x) + g(x)
  {
    SumTakeOut(s, f, x);
    SumTakeOut(s, g, x);
    SumAgree(s - {x}, f, g);
  }

  /** One summand is added. */
  lemma SumGrow(s: set<string>, f: string -> int, g: string -> int, x: string)
    requires x !in s && forall y :: y in s ==> f(y) == g(y)
    ensures Sum(s + {x}, g) == Sum(s, f) + g(x)
  {
    SumTakeOut(s + {x}, g, x);
    assert s + {x} - {x} == s;
    SumAgree(s, f, g);
  }

  lemma {:induction false} SumDisjoint(s: set<string>, t: set<string>, f: string -> int)
    requires s !! t
    ensures Sum(s + t, f) == Sum(s, f) + Sum(t, f)
  {
    if s == {} {
      assert s + t == t;
    } else {
      var x :| x in s;
      SumTakeOut(s, f, x);
      SumTakeOut(s + t, f, x);
      assert s + t - {x} == (s - {x}) + t;
      SumDisjoint(s - {x}, t, f);
    }
  }

  lemma SumOne(x: string, f: string -> int)
    ensures Sum({x}, f) == f(x)
  {
    SumTakeOut({x}, f, x);
    assert {x} - {x} == {};
  }

  /** What comes in over two stretches is what comes in over both. */
  lemma SumOfArrivals(s: set<string>, t: set<string>, u: set<string>, f: string -> int, g: string -> int)
    requires s <= t <= u && forall x :: x in t ==> f(x) == g(x)
    ensures Sum(u - s, g) == Sum(t - s, f) + Sum(u - t, g)
  {
    assert u - s == (t - s) + (u - t);
    SumDisjoint(t - s, u - t, g);
    SumAgree(t - s, f, g);
  }

  lemma {:induction false} SumAdd(s: set<string>, f: string -> int, g: string -> int, h: string -> int)
    requires forall x :: x in s ==> h(x) == f(x) + g(x)
    ensures Sum(s, h) == Sum(s, f) + Sum(s, g)
  {
    if s != {} {
      var x :| x in s;
      SumTakeOut(s, f, x);
      SumTakeOut(s, g, x);
      SumTakeOut(s, h, x);
      SumAdd(s - {x}, f, g, h);
    }
  }

  /** Where the terms are zero they may be left out. */
  lemma {:induction false} SumOnlyOver(s: set<string>, t: set<string>, f: string -> int)
    requires t <= s && forall x :: x in s && x !in t ==> f(x) == 0
    ensures Sum(s, f) == Sum(t, f)
    decreases s - t
  {
    if x :| x in s && x !in t {
      SumTakeOut(s, f, x);
      assert x in s - t && x !in s - {x} - t;
      SumOnlyOver(s - {x}, t, f);
    } else {
      assert s == t;
    }
  }

  /** Summing over the images of an injective renaming. */
  lemma {:induction false} SumRename(s: set<string>, t: set<string>, f: string -> int, g: string -> int, suffix: string)
    requires forall x :: x in s ==> x + suffix in t && g(x + suffix) == f(x)
    requires forall y :: y in t ==> exists x :: x in s && y == x + suffix
    ensures Sum(s, f) == Sum(t, g)
  {
    if s == {} {
      assert t == {};
    } else {
      var x :| x in s;
      SumTakeOut(s, f, x);
      SumTakeOut(t, g, x + suffix);
      forall z | z in s - {x} ensures z + suffix in t - {x + suffix} {
        assert (z + suffix)[..|z|] == z && (x + suffix)[..|x|] == x;
      }
      SumRename(s - {x}, t - {x + suffix}, f, g, suffix);
    }
  }
}
