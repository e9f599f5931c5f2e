/** The events of one task among those of all the others: what the others do comes in before each of its own. */
module Weaving {
  /** What the others do before the task's event number `k`; nothing once the list is at its end. */
  function At<T>(others: seq<seq<T>>, k: nat): seq<T> { if k < |others| then others[k] else [] }

  function From<T>(others: seq<seq<T>>, k: nat): seq<seq<T>> { if k <= |others| then others[k..] else [] }

  function Woven<T>(own: seq<T>, others: seq<seq<T>>): seq<T>
    decreases |own|
  {
    if own == [] then []
    else
      var n := |own| - 1;
      Woven(own[..n], others) + At(others, n) + [own[n]]
  }

  lemma {:induction false} WovenSnoc<T>(own: seq<T>, others: seq<seq<T>>, e: T)
    ensures Woven(own + [e], others) == Woven(own, others) + At(others, |own|) + [e]
  {
    assert (own + [e])[..|own|] == own;
  }

  lemma {:induction false} AtFrom<T>(others: seq<seq<T>>, k: nat, n: nat)
    ensures At(From(others, k), n) == At(others, k + n)
  {
  }

  lemma {:induction false} FrontOfWoven<T>(own: seq<T>, others: seq<seq<T>>)
    requires own != []
    ensures var n := |own| - 1; Woven(own, others) == Woven(own[..n], others) + At(others, n) + [own[n]]
  {
  }

  lemma {:induction false} WovenAppend<T>(a: seq<T>, b: seq<T>, others: seq<seq<T>>)
    ensures Woven(a + b, others) == Woven(a, others) + Woven(b, From(others, |a|))
    decreases |b|
  {
    hide Woven, At, From;
    var later := From(others, |a|);
    if b == [] {
      assert a + b == a;
      NothingWoven(later);
    } else {
      var n := |b| - 1;
      var e := b[n];
      WovenAppend(a, b[..n], others);
      assert (a + b)[..|a| + n] == a + b[..n] && (a + b)[|a| + n] == e;
      FrontOfWoven(a + b, others);
      FrontOfWoven(b, later);
      AtFrom(others, |a|, n);
      assert Woven(a, others) + Woven(b[..n], later) + At(later, n) + [e]
          == Woven(a, others) + (Woven(b[..n], later) + At(later, n) + [e]);
    }
  }

  lemma {:induction false} NothingWoven<T>(others: seq<seq<T>>)
    ensures Woven<T>([], others) == []
  {
  }
}
