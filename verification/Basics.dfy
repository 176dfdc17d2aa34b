/** Option and Result, and the few facts about sequences that the models share. */
module Basics {

  datatype Option<+T> = None | Some(value: T)

  datatype Result<+T, +E> = Ok(value: T) | Err(error: E)

  /** The value a Go map lookup with the comma-ok form finds. */
  function Get<K, V>(m: map<K, V>, k: K): Option<V> {
    if k in m then Some(m[k]) else None
  }

  ghost predicate NoDup<T>(s: seq<T>) {
    forall i, j :: 0 <= i < j < |s| ==> s[i] != s[j]
  }

  /** The elements of s that are not in drop, in order: what a filter loop leaves. */
  function Without<T(!new,==)>(s: seq<T>, drop: set<T>): (r: seq<T>)
    ensures forall x :: x in r <==> x in s && x !in drop
    ensures |r| <= |s|
    ensures NoDup(s) ==> NoDup(r)
    ensures (forall x :: x in s ==> x !in drop) ==> r == s
  {
    if s == [] then []
    else
      var front := Without(s[..|s| - 1], drop);
      assert s == s[..|s| - 1] + [s[|s| - 1]];
      if s[|s| - 1] in drop then front else front + [s[|s| - 1]]
  }

  /** One more element: how the filter loop advances. */
  lemma WithoutSnoc<T(!new)>(s: seq<T>, x: T, drop: set<T>)
    ensures Without(s + [x], drop) == if x in drop then Without(s, drop) else Without(s, drop) + [x]
  {
    assert (s + [x])[..|s|] == s;
  }

  lemma {:induction false} WithoutConcat<T(!new)>(a: seq<T>, b: seq<T>, drop: set<T>)
    ensures Without(a + b, drop) == Without(a, drop) + Without(b, drop)
  {
    hide Without;
    if b == [] {
      assert a + b == a;
    } else {
      var front, last := b[..|b| - 1], b[|b| - 1];
      WithoutConcat(a, front, drop);
      assert b == front + [last] && a + b == (a + front) + [last];
      WithoutSnoc(front, last, drop);
      WithoutSnoc(a + front, last, drop);
    }
  }

  lemma WithoutMiddle<T(!new)>(p: seq<T>, x: T, q: seq<T>)
    requires x !in p && x !in q
    ensures Without(p + [x] + q, {x}) == p + q
  {
    WithoutConcat(p + [x], q, {x});
    WithoutSnoc(p, x, {x});
  }

  lemma MiddleAbsent<T>(p: seq<T>, x: T, q: seq<T>)
    requires NoDup(p + [x] + q)
    ensures x !in p && x !in q
  {
    var s := p + [x] + q;
    assert s[|p|] == x;
    forall j | 0 <= j < |p| ensures p[j] != x {
      assert s[j] == p[j];
    }
    forall j | 0 <= j < |q| ensures q[j] != x {
      assert s[|p| + 1 + j] == q[j];
    }
  }

  /** Without duplicates, cutting out one position is filtering out its element. */
  lemma WithoutOne<T(!new)>(s: seq<T>, i: nat)
    requires i < |s| && NoDup(s)
    ensures s[..i] + s[i + 1..] == Without(s, {s[i]})
  {
    hide Without, NoDup;
    var p, x, q := s[..i], s[i], s[i + 1..];
    assert s == p + [x] + q;
    MiddleAbsent(p, x, q);
    WithoutMiddle(p, x, q);
  }

  /** What of a list of events gets out if so many sends succeed before the connection drops. */
  function Sent<T>(s: seq<T>, sends: nat): (r: seq<T>)
    ensures r <= s && |r| == if |s| <= sends then |s| else sends
  {
    if |s| <= sends then s else s[..sends]
  }

  lemma SentOfPrefix<T>(s: seq<T>, t: seq<T>, sends: nat)
    requires s <= t && |s| >= sends
    ensures Sent(t, sends) == s[..sends]
  {
    assert t[..|s|] == s;
  }
}
