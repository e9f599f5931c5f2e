/** Facts about finite sets that several modules need. */
module Sets {
  lemma {:induction false} SmallerUnlessEqual<T>(a: set<T>, b: set<T>)
    requires a <= b
    ensures |a| <= |b| && (|a| == |b| ==> a == b)
  {
    if a != {} {
      var x :| x in a;
      SmallerUnlessEqual(a - {x}, b - {x});
      assert a == (a - {x}) + {x} && b == (b - {x}) + {x};
    } else if b != {} {
      var x :| x in b;
      assert |b| == |b - {x}| + 1;
    }
  }

  function Least(s: set<nat>): (least: nat)
    requires s != {}
    ensures least in s && forall t | t in s :: least <= t
  {
    ghost var some :| some in s;
    HasLeast(s, some);
    var least :| least in s && forall t | t in s :: least <= t;
    least
  }

  lemma {:induction false} HasLeast(s: set<nat>, some: nat)
    requires some in s
    ensures exists least :: least in s && forall t | t in s :: least <= t
    decreases some
  {
    if smaller :| smaller in s && smaller < some {
      HasLeast(s, smaller);
    }
  }
}
