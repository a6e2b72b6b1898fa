/** The order of `std::string`, in which `std::map` and `std::set` keep and visit their keys. */
module StringOrder {

  predicate Before(a: string, b: string) {
    b != [] && (a == [] || a[0] < b[0] || (a[0] == b[0] && Before(a[1..], b[1..])))
  }

  /** At position `i` the strings first differ: `a` ends there or has the smaller character. */
  predicate DifferAt(a: string, b: string, i: nat) {
    && i <= |a| && i < |b| && a[..i] == b[..i]
    && (i == |a| || a[i] < b[i])
  }

  /** The order is lexicographic: a proper prefix, or the smaller character where they first differ. */
  lemma {:induction false} BeforeIsLexicographic(a: string, b: string)
    ensures Before(a, b) <==> exists i :: DifferAt(a, b, i)
  {
    if Before(a, b) {
      var i := FirstDifference(a, b);
    }
    if i :| DifferAt(a, b, i) {
      DifferenceDecides(a, b, i);
    }
  }

  lemma {:induction false} FirstDifference(a: string, b: string) returns (i: nat)
    requires Before(a, b)
    ensures DifferAt(a, b, i)
  {
    i := 0;
    if a != [] && a[0] == b[0] {
      i := FirstDifference(a[1..], b[1..]);
      assert a[..i + 1] == [a[0]] + a[1..][..i] && b[..i + 1] == [b[0]] + b[1..][..i];
      i := i + 1;
    }
  }

  lemma {:induction false} DifferenceDecides(a: string, b: string, i: nat)
    requires DifferAt(a, b, i)
    ensures Before(a, b)
    decreases i
  {
    if i > 0 {
      assert a[0] == a[..i][0] == b[..i][0] == b[0];
      assert a[1..][..i - 1] == a[..i][1..] && b[1..][..i - 1] == b[..i][1..];
      DifferenceDecides(a[1..], b[1..], i - 1);
    }
  }

  lemma {:induction false} Trichotomy(a: string, b: string)
    ensures a == b || Before(a, b) || Before(b, a)
    ensures !(Before(a, b) && Before(b, a))
    ensures a == b ==> !Before(a, b)
  {
    if a != [] && b != [] {
      Trichotomy(a[1..], b[1..]);
      assert a == [a[0]] + a[1..] && b == [b[0]] + b[1..];
    }
  }

  lemma {:induction false} Transitive(a: string, b: string, c: string)
    requires Before(a, b) && Before(b, c)
    ensures Before(a, c)
  {
    if a != [] && a[0] == b[0] == c[0] {
      Transitive(a[1..], b[1..], c[1..]);
    }
  }

  /** The key an ordered container visits first. */
  predicate IsLeast(s: set<string>, m: string) {
    m in s && forall x :: x in s && x != m ==> Before(m, x)
  }

  method Least(s: set<string>) returns (m: string)
    requires s != {}
    ensures IsLeast(s, m)
  {
    m :| m in s;
    var rest := s - {m};
    while rest != {}
      invariant rest <= s && m in s && m !in rest
      invariant IsLeast(s - rest, m)
      decreases rest
    {
      var x :| x in rest;
      Trichotomy(x, m);
      if Before(x, m) {
        forall y | y in s - rest && y != m
          ensures Before(x, y)
        {
          Transitive(x, m, y);
        }
        m := x;
      }
      rest := rest - {x};
    }
    assert s - rest == s;
  }
}
