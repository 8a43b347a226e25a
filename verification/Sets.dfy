/** Sizes of finite sets. */
module Sets {

  lemma SubsetSize<T>(a: set<T>, b: set<T>)
    requires a <= b
    ensures |a| <= |b|
    ensures a != b ==> |a| < |b|
  {
    assert b == a + (b - a);
  }

  function Image<A, B>(s: set<A>, f: A -> B): set<B> {
    set x | x in s :: f(x)
  }

  ghost predicate InjectiveOn<A(!new), B>(s: set<A>, f: A -> B) {
    forall x, y :: x in s && y in s && f(x) == f(y) ==> x == y
  }

  lemma ImageOneMore<A, B>(s: set<A>, f: A -> B, x: A)
    requires x in s
    ensures Image(s, f) == Image(s - {x}, f) + {f(x)}
  {
  }

  /** An image is as large as its set exactly when no two elements share an image. */
  lemma {:induction false} ImageSize<A(!new), B>(s: set<A>, f: A -> B)
    ensures |Image(s, f)| <= |s|
    ensures |Image(s, f)| == |s| <==> InjectiveOn(s, f)
    decreases |s|
  {
    if s != {} {
      var x :| x in s;
      var rest := s - {x};
      ImageSize(rest, f);
      ImageOneMore(s, f, x);
      if f(x) in Image(rest, f) {
        var y :| y in rest && f(y) == f(x);
        assert !InjectiveOn(s, f);
      } else {
        assert InjectiveOn(rest, f) ==> InjectiveOn(s, f);
      }
    }
  }

  function Elements<T>(s: seq<T>): set<T> {
    set x | x in s
  }

  lemma {:induction false} DistinctSize<T>(s: seq<T>)
    requires forall i, j :: 0 <= i < j < |s| ==> s[i] != s[j]
    ensures |Elements(s)| == |s|
  {
    if s != [] {
      var front, last := s[..|s| - 1], s[|s| - 1];
      DistinctSize(front);
      assert s == front + [last];
      assert Elements(s) == Elements(front) + {last};
      assert last !in front;
    }
  }
}
