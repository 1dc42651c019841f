/** Sequences without repetition, as JavaScript's `Set` and object keys give them. */
module Collections {

  datatype Option<+T> = None | Some(value: T)

  ghost predicate Distinct<T>(s: seq<T>) {
    forall i, j :: 0 <= i < j < |s| ==> s[i] != s[j]
  }

  ghost function Elements<T>(s: seq<T>): set<T> {
    set x | x in s
  }

  /** `[...new Set(s)]`: first occurrences, in order. */
  function Dedup<T(==,!new)>(s: seq<T>): (r: seq<T>)
    ensures Distinct(r)
    ensures forall x :: x in r <==> x in s
    ensures |r| <= |s|
  {
    if s == [] then []
    else
      var r := Dedup(s[..|s| - 1]);
      var last := s[|s| - 1];
      assert s == s[..|s| - 1] + [last];
      if last in r then r else r + [last]
  }

  lemma DedupStep<T(!new)>(s: seq<T>, x: T)
    ensures Dedup(s + [x]) == if x in Dedup(s) then Dedup(s) else Dedup(s) + [x]
  {
    assert (s + [x])[..|s + [x]| - 1] == s;
  }

  /** A sequence that has no repetition is left alone. */
  lemma {:induction false} DedupOfDistinct<T(!new)>(s: seq<T>)
    requires Distinct(s)
    ensures Dedup(s) == s
  {
    if s == [] {
    } else {
      var init := s[..|s| - 1];
      DedupOfDistinct(init);
      assert s == init + [s[|s| - 1]];
    }
  }

  lemma {:induction false} DistinctCardinality<T>(s: seq<T>)
    requires Distinct(s)
    ensures |Elements(s)| == |s|
  {
    if s == [] {
      assert Elements(s) == {};
    } else {
      var init := s[..|s| - 1];
      var last := s[|s| - 1];
      DistinctCardinality(init);
      assert s == init + [last];
      assert last !in init;
      assert Elements(s) == Elements(init) + {last};
    }
  }

  lemma SubsetCardinality<T>(a: set<T>, b: set<T>)
    requires a <= b
    ensures |a| <= |b|
    ensures |a| == |b| ==> a == b
  {
    assert b == a + (b - a);
    assert |b| == |a| + |b - a|;
  }

  lemma DistinctAppend<T>(a: seq<T>, b: seq<T>)
    requires Distinct(a) && Distinct(b)
    requires forall x :: x in a ==> x !in b
    ensures Distinct(a + b)
  {
    var s := a + b;
    forall i, j | 0 <= i < j < |s| ensures s[i] != s[j] {
      if i < |a| <= j {
        assert s[i] == a[i] && s[j] == b[j - |a|];
        assert a[i] in a && b[j - |a|] in b;
      }
    }
  }

  /** Prefixes grow by one element: what a counting loop over a sequence needs. */
  lemma TakeNext<T>(s: seq<T>, i: nat)
    requires i < |s|
    ensures s[..i + 1] == s[..i] + [s[i]]
    ensures s[..i + 1][..i] == s[..i]
  {
  }

  lemma Slices<T>(a: seq<T>, x: T, b: seq<T>, s: seq<T>)
    requires s == a + ([x] + b)
    ensures |a| < |s| && s[|a|] == x && s[..|a|] == a && s[|a| + 1..] == b
  {
  }

  /** Two lists that together hold what a third one does. */
  ghost predicate Shares<T>(a: seq<T>, b: seq<T>, all: seq<T>) {
    multiset(a) + multiset(b) == multiset(all)
  }

  lemma SharesPush<T>(a: seq<T>, b: seq<T>, all: seq<T>, x: T)
    requires Shares(a, b, all)
    ensures Shares(a + [x], b, all + [x]) && Shares(a, b + [x], all + [x])
  {
  }

  lemma MultisetPush<T>(s: seq<T>, x: T)
    ensures multiset(s + [x]) == multiset(s) + multiset{x}
  {
  }

  lemma TakeAll<T>(s: seq<T>)
    ensures s[..|s|] == s
  {
  }

  lemma AppendAssoc<T>(a: seq<T>, b: seq<T>, c: seq<T>)
    ensures a + b + c == a + (b + c)
  {
  }

  lemma AppendNothing<T>(a: seq<T>)
    ensures a + [] == a && [] + a == a
  {
  }

  lemma NothingIn<T(!new)>(s: seq<T>)
    ensures s == [] <==> forall x :: x !in s
  {
    if s != [] {
      assert s[0] in s;
    }
  }

  function Map<T, R>(f: T -> R, s: seq<T>): (r: seq<R>)
    ensures |r| == |s| && forall i :: 0 <= i < |s| ==> r[i] == f(s[i])
  {
    seq(|s|, i requires 0 <= i < |s| => f(s[i]))
  }

  lemma MapOne<T, R>(f: T -> R, x: T)
    ensures Map(f, [x]) == [f(x)]
  {
  }

  lemma MapAppend<T, R>(f: T -> R, a: seq<T>, b: seq<T>)
    ensures Map(f, a + b) == Map(f, a) + Map(f, b)
  {
  }

  function FlatMap<T, R>(f: T -> seq<R>, s: seq<T>): seq<R> {
    if s == [] then [] else FlatMap(f, s[..|s| - 1]) + f(s[|s| - 1])
  }

  lemma {:induction false} FlatMapAppend<T, R>(f: T -> seq<R>, a: seq<T>, b: seq<T>)
    ensures FlatMap(f, a + b) == FlatMap(f, a) + FlatMap(f, b)
  {
    if b == [] {
      AppendNothing(a);
      AppendNothing(FlatMap(f, a));
    } else {
      var init := b[..|b| - 1];
      var last := b[|b| - 1];
      assert (a + b)[..|a + b| - 1] == a + init;
      FlatMapAppend(f, a, init);
      AppendAssoc(FlatMap(f, a), FlatMap(f, init), f(last));
    }
  }

  lemma FlatMapOne<T, R>(f: T -> seq<R>, x: T)
    ensures FlatMap(f, [x]) == f(x)
  {
    assert [x][..0] == [];
    AppendNothing(f(x));
  }

  lemma {:induction false} FlatMapEqual<T, U, R>(f: T -> seq<R>, a: seq<T>, g: U -> seq<R>, b: seq<U>)
    requires |a| == |b| && forall i :: 0 <= i < |a| ==> f(a[i]) == g(b[i])
    ensures FlatMap(f, a) == FlatMap(g, b)
  {
    if a == [] {
    } else {
      FlatMapEqual(f, a[..|a| - 1], g, b[..|b| - 1]);
    }
  }

  lemma {:induction false} FlatMapAll<T, R(!new)>(f: T -> seq<R>, s: seq<T>, p: R -> bool)
    requires forall x :: x in s ==> forall r :: r in f(x) ==> p(r)
    ensures forall r :: r in FlatMap(f, s) ==> p(r)
  {
    if s == [] {
    } else {
      FlatMapAll(f, s[..|s| - 1], p);
      assert s[|s| - 1] in s;
    }
  }

  /** Two filters that share a sequence out between them. */
  lemma {:induction false} FlatMapShares<T>(f: T -> seq<T>, g: T -> seq<T>, s: seq<T>)
    requires forall x :: x in s ==> (f(x) == [x] && g(x) == []) || (f(x) == [] && g(x) == [x])
    ensures multiset(FlatMap(f, s)) + multiset(FlatMap(g, s)) == multiset(s)
  {
    if s == [] {
    } else {
      var init, last := s[..|s| - 1], s[|s| - 1];
      assert last in s && s == init + [last];
      FlatMapShares(f, g, init);
      MultisetPush(init, last);
    }
  }

  lemma {:induction false} FlatMapAtMost<T, R>(f: T -> seq<R>, s: seq<T>)
    requires forall x :: x in s ==> |f(x)| <= 1
    ensures |FlatMap(f, s)| <= |s|
  {
    if s == [] {
    } else {
      FlatMapAtMost(f, s[..|s| - 1]);
      assert s[|s| - 1] in s;
    }
  }

  /** A filter leaves a sequence alone exactly when it keeps each element as it is. */
  lemma {:induction false} FilterIsIdentity<T>(f: T -> seq<T>, s: seq<T>)
    requires forall x :: x in s ==> |f(x)| <= 1
    ensures FlatMap(f, s) == s <==> forall x :: x in s ==> f(x) == [x]
  {
    if s == [] {
    } else {
      var init, last := s[..|s| - 1], s[|s| - 1];
      assert s == init + [last] && last in s;
      FilterIsIdentity(f, init);
      FlatMapAtMost(f, init);
      if FlatMap(f, s) == s {
        assert |FlatMap(f, init)| == |init|;
        assert FlatMap(f, init) == s[..|init|] == init;
      }
    }
  }

  function Then<T, U, R>(f: T -> seq<U>, g: U -> seq<R>): T -> seq<R> {
    (x: T) => FlatMap(g, f(x))
  }

  lemma {:induction false} FlatMapThen<T, U, R>(f: T -> seq<U>, g: U -> seq<R>, s: seq<T>)
    ensures FlatMap(g, FlatMap(f, s)) == FlatMap(Then(f, g), s)
  {
    if s == [] {
    } else {
      FlatMapThen(f, g, s[..|s| - 1]);
      FlatMapAppend(g, FlatMap(f, s[..|s| - 1]), f(s[|s| - 1]));
    }
  }

  // --------------------------------------------------------------- positions

  /** The positions of a list at which something holds. */
  ghost function Positions<T>(s: seq<T>, p: T -> bool): set<int> {
    set i | 0 <= i < |s| && p(s[i])
  }

  lemma PositionsPush<T>(s: seq<T>, x: T, p: T -> bool)
    ensures |Positions(s + [x], p)| == |Positions(s, p)| + if p(x) then 1 else 0
  {
    var more := s + [x];
    assert forall i :: 0 <= i < |s| ==> more[i] == s[i];
    if p(x) {
      assert Positions(more, p) == Positions(s, p) + {|s|};
    } else {
      assert Positions(more, p) == Positions(s, p);
    }
  }

  lemma NoPositions<T>(p: T -> bool)
    ensures Positions([], p) == {}
  {
  }

  lemma SomePosition<T>(s: seq<T>, p: T -> bool)
    ensures |Positions(s, p)| > 0 <==> exists i :: 0 <= i < |s| && p(s[i])
  {
    if i :| 0 <= i < |s| && p(s[i]) {
      assert i in Positions(s, p);
    } else {
      assert Positions(s, p) == {};
    }
  }
}
