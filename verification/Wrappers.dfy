/** What the whole model shares: the optional values, where the program has `None` or raises no error but finds nothing;
    and counting of sets. */
module Wrappers {
  datatype Option<+T> = None | Some(value: T)

  /** A part of a set has fewer elements. */
  lemma Fewer<T>(a: set<T>, b: set<T>)
    requires a <= b
    ensures |a| <= |b| && (a != b ==> |a| < |b|)
  {
    assert b == a + (b - a);
    if a != b {
      var x :| x in b - a;
    }
  }

  lemma {:induction false} Least(ks: set<nat>) returns (k: nat)
    requires ks != {}
    ensures k in ks && forall j :: j in ks ==> k <= j
    decreases |ks|
  {
    k :| k in ks;
    var rest := ks - {k};
    assert ks == rest + {k};
    if rest != {} {
      var other := Least(rest);
      if other < k { k := other; }
    }
  }
}
