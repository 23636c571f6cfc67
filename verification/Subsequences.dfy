/** In-order subsequences, the relation between what was offered and what arrived. */
module Subsequences {

  // `a` can be obtained from `b` by leaving elements out.
  ghost predicate Sub<T>(a: seq<T>, b: seq<T>)
    decreases |b|
  {
    || a == []
    || (b != [] && (|| Sub(a, Front(b))
                    || (a[|a| - 1] == b[|b| - 1] && Sub(Front(a), Front(b)))))
  }

  function Front<T>(s: seq<T>): seq<T>
    requires s != []
  {
    s[..|s| - 1]
  }

  lemma SubSkip<T>(a: seq<T>, b: seq<T>, x: T)
    requires Sub(a, b)
    ensures Sub(a, b + [x])
  {
    assert Front(b + [x]) == b;
  }

  lemma SubKeep<T>(a: seq<T>, b: seq<T>, x: T)
    requires Sub(a, b)
    ensures Sub(a + [x], b + [x])
  {
    assert Front(b + [x]) == b && Front(a + [x]) == a;
  }

  lemma {:induction false} SubRefl<T>(a: seq<T>)
    ensures Sub(a, a)
  {
    if a != [] {
      SubRefl(Front(a));
    }
  }

  lemma {:induction false} SubTransitive<T>(a: seq<T>, b: seq<T>, c: seq<T>)
    requires Sub(a, b) && Sub(b, c)
    ensures Sub(a, c)
    decreases |b| + |c|
  {
    if a != [] && b != [] {
      if Sub(b, Front(c)) {
        SubTransitive(a, b, Front(c));
      } else if Sub(a, Front(b)) {
        SubTransitive(a, Front(b), Front(c));
      } else {
        SubTransitive(Front(a), Front(b), Front(c));
      }
    }
  }

  lemma {:induction false} SubConcat<T>(a: seq<T>, b: seq<T>, c: seq<T>, d: seq<T>)
    requires Sub(a, b) && Sub(c, d)
    ensures Sub(a + c, b + d)
    decreases |d|
  {
    if c == [] && d == [] {
      assert a + c == a && b + d == b;
    } else {
      var x := d[|d| - 1];
      assert b + d == (b + Front(d)) + [x];
      if Sub(c, Front(d)) {
        SubConcat(a, b, c, Front(d));
        SubSkip(a + c, b + Front(d), x);
      } else {
        SubConcat(a, b, Front(c), Front(d));
        SubKeep(a + Front(c), b + Front(d), x);
        assert a + c == (a + Front(c)) + [x];
      }
    }
  }

  // An in-order subsequence loses no order: equal length means nothing was left out.
  lemma {:induction false} SubLength<T>(a: seq<T>, b: seq<T>)
    requires Sub(a, b)
    ensures |a| <= |b|
    ensures |a| == |b| ==> a == b
    decreases |b|
  {
    if a != [] {
      if Sub(a, Front(b)) {
        SubLength(a, Front(b));
      } else {
        SubLength(Front(a), Front(b));
        assert a == Front(a) + [a[|a| - 1]] && b == Front(b) + [b[|b| - 1]];
      }
    }
  }

  lemma {:induction false} PrefixSub<T>(a: seq<T>, b: seq<T>)
    requires a <= b
    ensures Sub(a, b)
    decreases |b|
  {
    if |a| == |b| {
      assert a == b;
      SubRefl(a);
    } else {
      PrefixSub(a, Front(b));
      SubSkip(a, Front(b), b[|b| - 1]);
      assert b == Front(b) + [b[|b| - 1]];
    }
  }

  ghost predicate Distinct<T>(s: seq<T>) {
    forall i, j :: 0 <= i < j < |s| ==> s[i] != s[j]
  }

  lemma {:induction false} SubMember<T>(a: seq<T>, b: seq<T>, x: T)
    requires Sub(a, b) && x in a
    ensures x in b
    decreases |b|
  {
    if Sub(a, Front(b)) {
      SubMember(a, Front(b), x);
    } else if x != a[|a| - 1] {
      assert a == Front(a) + [a[|a| - 1]];
      SubMember(Front(a), Front(b), x);
    }
  }

  // Leaving elements out makes no duplicates.
  lemma {:induction false} SubDistinct<T>(a: seq<T>, b: seq<T>)
    requires Sub(a, b) && Distinct(b)
    ensures Distinct(a)
    decreases |b|
  {
    if a != [] {
      if Sub(a, Front(b)) {
        SubDistinct(a, Front(b));
      } else {
        SubDistinct(Front(a), Front(b));
        forall i | 0 <= i < |a| - 1 ensures a[i] != a[|a| - 1] {
          assert a[i] == Front(a)[i];
          SubMember(Front(a), Front(b), a[i]);
        }
      }
    }
  }
}
