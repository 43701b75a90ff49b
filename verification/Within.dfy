/**
 One sequence standing inside another at a position: the vocabulary of every codec proof.
 */
module Within {

  /** `w` stands in `t` at position `p`. */
  predicate At<T(==)>(t: seq<T>, p: nat, w: seq<T>) { p + |w| <= |t| && forall i :: 0 <= i < |w| ==> t[p + i] == w[i] }

  lemma AtBound<T>(t: seq<T>, p: nat, w: seq<T>)
    requires At(t, p, w)
    ensures p + |w| <= |t|
  {}

  lemma AtFirst<T>(t: seq<T>, p: nat, w: seq<T>)
    requires At(t, p, w) && |w| > 0
    ensures p < |t| && t[p] == w[0]
  {
    assert t[p + 0] == w[0];
  }

  lemma AtRest<T>(t: seq<T>, p: nat, w: seq<T>)
    requires At(t, p, w) && |w| > 0
    ensures At(t, p + 1, w[1..])
  {
    forall i | 0 <= i < |w[1..]| ensures t[p + 1 + i] == w[1..][i] { assert t[p + (i + 1)] == w[i + 1]; }
  }

  lemma AtSlice<T>(t: seq<T>, p: nat, w: seq<T>)
    requires At(t, p, w)
    ensures p + |w| <= |t| && t[p..p + |w|] == w
  {}

  /** A joined piece stands where its parts stand one after the other. */
  lemma AtJoin<T>(t: seq<T>, p: nat, a: seq<T>, b: seq<T>)
    ensures At(t, p, a + b) <==> At(t, p, a) && At(t, p + |a|, b)
  {
    if At(t, p, a + b) {
      forall i | 0 <= i < |a| ensures t[p + i] == a[i] { assert (a + b)[i] == a[i]; }
      forall i | 0 <= i < |b| ensures t[p + |a| + i] == b[i] {
        assert (a + b)[|a| + i] == b[i];
        assert t[p + (|a| + i)] == b[i];
      }
    } else if At(t, p, a) && At(t, p + |a|, b) {
      forall i | 0 <= i < |a + b| ensures t[p + i] == (a + b)[i] {
        if i >= |a| { assert t[p + |a| + (i - |a|)] == b[i - |a|]; }
      }
    }
  }

  lemma AtJoin3<T>(t: seq<T>, p: nat, a: seq<T>, b: seq<T>, c: seq<T>)
    ensures At(t, p, a + b + c) <==> At(t, p, a) && At(t, p + |a|, b) && At(t, p + |a| + |b|, c)
  {
    hide At;
    AtJoin(t, p, a + b, c);
    AtJoin(t, p, a, b);
  }

  lemma AtJoin5<T>(t: seq<T>, p: nat, a: seq<T>, b: seq<T>, c: seq<T>, d: seq<T>, e: seq<T>)
    requires At(t, p, a + b + c + d + e)
    ensures At(t, p, a) && At(t, p + |a|, b) && At(t, p + |a| + |b|, c) && At(t, p + |a| + |b| + |c|, d)
    ensures At(t, p + |a| + |b| + |c| + |d|, e)
  {
    hide At;
    AtJoin3(t, p, a + b + c, d, e);
    AtJoin3(t, p, a, b, c);
  }
}
