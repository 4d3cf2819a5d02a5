/** Facts about sequences that the ring lists and the kernel queues share. */
module Sequences {
  ghost predicate NoDup<T>(s: seq<T>) {
    forall i, j :: 0 <= i < j < |s| ==> s[i] != s[j]
  }

  /** `s` with every occurrence of `v` deleted, the rest in order. */
  function Without<T(==)>(s: seq<T>, v: T): seq<T> {
    if s == [] then []
    else Without(s[..|s| - 1], v) + (if s[|s| - 1] == v then [] else [s[|s| - 1]])
  }

  lemma {:induction false} WithoutMembers<T>(s: seq<T>, v: T)
    ensures forall x :: x in Without(s, v) <==> x in s && x != v
    ensures |Without(s, v)| <= |s|
    ensures |Without(s, v)| == |s| <==> v !in s
  {
    if s != [] {
      WithoutMembers(s[..|s| - 1], v);
      assert s == s[..|s| - 1] + [s[|s| - 1]];
    }
  }

  lemma {:induction false} WithoutAbsent<T>(s: seq<T>, v: T)
    requires v !in s
    ensures Without(s, v) == s
  {
    if s != [] {
      WithoutAbsent(s[..|s| - 1], v);
      assert s == s[..|s| - 1] + [s[|s| - 1]];
    }
  }

  lemma {:induction false} WithoutConcat<T>(a: seq<T>, b: seq<T>, v: T)
    ensures Without(a + b, v) == Without(a, v) + Without(b, v)
  {
    if b == [] {
      assert a + b == a;
    } else {
      assert (a + b)[..|a + b| - 1] == a + b[..|b| - 1];
      WithoutConcat(a, b[..|b| - 1], v);
    }
  }

  lemma WithoutLast<T>(a: seq<T>, v: T)
    ensures Without(a + [v], v) == Without(a, v)
  {
    assert (a + [v])[..|a|] == a;
  }

  /** Deleting a value that occurs once takes out exactly that position. */
  lemma WithoutOnce<T>(a: seq<T>, v: T, b: seq<T>)
    requires v !in a && v !in b
    ensures Without(a + [v] + b, v) == a + b
  {
    WithoutConcat(a + [v], b, v);
    WithoutLast(a, v);
    WithoutAbsent(a, v);
    WithoutAbsent(b, v);
  }

  lemma {:induction false} WithoutNoDup<T>(s: seq<T>, v: T)
    requires NoDup(s)
    ensures NoDup(Without(s, v))
  {
    if s != [] {
      var front, last := s[..|s| - 1], s[|s| - 1];
      assert last !in front;
      WithoutNoDup(front, v);
      WithoutMembers(front, v);
    }
  }

  lemma NoDupConcat<T>(a: seq<T>, b: seq<T>)
    requires NoDup(a) && NoDup(b)
    requires forall x :: x in a ==> x !in b
    ensures NoDup(a + b)
  {
    var s := a + b;
    forall i, j | 0 <= i < j < |s| ensures s[i] != s[j] {
      if i < |a| <= j {
        assert s[i] in a && s[j] in b;
      }
    }
  }

  lemma NotTwice<T>(a: seq<T>, x: T, b: seq<T>)
    requires NoDup(a + [x] + b)
    ensures x !in a && x !in b
  {
    var s := a + [x] + b;
    assert s[|a|] == x;
    assert forall i :: 0 <= i < |b| ==> s[|a| + 1 + i] == b[i];
    assert forall i :: 0 <= i < |a| ==> s[i] == a[i];
  }

  lemma FrontNoDup<T>(x: T, s: seq<T>)
    requires NoDup([x] + s)
    ensures NoDup(s) && x !in s
  {
    var t := [x] + s;
    forall i, j | 0 <= i < j < |s| ensures s[i] != s[j] {
      assert t[i + 1] != t[j + 1];
    }
    forall i | 0 <= i < |s| ensures s[i] != x {
      assert t[0] != t[i + 1];
    }
  }

  /** A duplicate-free list drawn from a finite set is no longer than the set. */
  lemma {:induction false} NoDupBound<T>(s: seq<T>, S: set<T>)
    requires NoDup(s)
    requires forall x :: x in s ==> x in S
    ensures |s| <= |S|
  {
    if s != [] {
      var front, last := s[..|s| - 1], s[|s| - 1];
      assert last !in front;
      assert last in s;
      NoDupBound(front, S - {last});
    }
  }

  /** How often `v` occurs in `s`. */
  function Count<T(==)>(s: seq<T>, v: T): (n: nat)
    ensures n > 0 <==> v in s
  {
    multiset(s)[v]
  }

  lemma CountPush<T>(s: seq<T>, x: T, v: T)
    ensures Count(s + [x], v) == Count(s, v) + (if x == v then 1 else 0)
  {
  }

  lemma CountPop<T>(s: seq<T>, v: T)
    requires s != []
    ensures Count(s, v) == Count(s[1..], v) + (if s[0] == v then 1 else 0)
  {
    assert s == [s[0]] + s[1..];
  }

  function Below(n: nat): (S: set<int>)
    ensures |S| == n
    ensures forall x :: x in S <==> 0 <= x < n
  {
    if n == 0 then {} else Below(n - 1) + {n - 1}
  }

  /** Pigeonhole: a duplicate-free list of numbers below `n` that misses one of them is shorter than `n`. */
  lemma Pigeonhole(s: seq<int>, n: nat, missing: int)
    requires NoDup(s)
    requires forall x :: x in s ==> 0 <= x < n
    requires 0 <= missing < n && missing !in s
    ensures |s| < n
  {
    NoDupBound(s, Below(n) - {missing});
  }

  /** What starts well and stays so is well throughout. */
  lemma {:induction false} Chain(well: seq<bool>, n: nat)
    requires n < |well| && well[0] && forall i: nat :: i + 1 < |well| && well[i] ==> well[i + 1]
    ensures well[n]
  {
    if n > 0 {
      Chain(well, n - 1);
      assert well[n - 1] ==> well[n - 1 + 1];
    }
  }

  /** A chain that starts well and goes wrong exactly at bad links is all well exactly if it has no bad link. */
  lemma {:induction false} NoBadLink(well: seq<bool>, bad: seq<bool>, n: nat)
    requires n < |well| && n <= |bad| && well[0]
    requires forall i :: 0 <= i < n ==> well[i] ==> (well[i + 1] <==> !bad[i])
    ensures (forall i :: 0 <= i <= n ==> well[i]) <==> (forall i :: 0 <= i < n ==> !bad[i])
  {
    if n > 0 {
      NoBadLink(well, bad, n - 1);
      assert well[n - 1] ==> (well[n - 1 + 1] <==> !bad[n - 1]);
    }
  }
}
