/** Counting through injections. */
module Sets {
  ghost predicate Injective<A, B>(f: map<A, B>) {
    forall x, y | x in f && y in f && f[x] == f[y] :: x == y
  }

  /** An injective map has as many values as keys. */
  lemma {:induction false} AsMany<A, B>(f: map<A, B>)
    requires Injective(f)
    ensures |f.Values| == |f.Keys|
  {
    if f.Keys == {} {
      assert f.Values == {};
    } else {
      var x :| x in f;
      var rest := f - {x};
      AsMany(rest);
      assert f.Keys == rest.Keys + {x};
      assert f.Values == rest.Values + {f[x]};
      assert f[x] !in rest.Values;
    }
  }

  lemma Fewer<A>(s: set<A>, t: set<A>)
    requires s <= t
    ensures |s| <= |t| && (|s| == |t| <==> s == t)
  {
    assert t == s + (t - s);
  }
}
