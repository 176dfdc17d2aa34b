/** The in-place edits of slices, on the arrays they share. */
module Slices {
  import opened Basics

  /** Filters a list into its own backing array: reader and writer share it. The writer never overtakes
      the reader, so the result is the filtered list. */
  method FilterInPlace(a: array<nat>, length: nat, drop: set<nat>) returns (kept: nat)
    requires length <= a.Length
    modifies a
    ensures kept <= length && a[..kept] == Without(old(a[..length]), drop)
    ensures a[length..] == old(a[length..])
  {
    kept := 0;
    for i := 0 to length
      invariant kept <= i
      invariant a[..kept] == Without(old(a[..i]), drop)
      invariant a[i..] == old(a[i..])
    {
      var x := a[i];
      assert x == old(a[i..])[0];
      assert old(a[..i + 1]) == old(a[..i]) + [x];
      WithoutSnoc(old(a[..i]), x, drop);
      assert a[i + 1..] == old(a[i..])[1..];
      if x !in drop {
        a[kept] := x;
        kept := kept + 1;
        assert a[..kept] == a[..kept - 1] + [x];
      }
      assert a[i + 1..] == old(a[i + 1..]);
    }
  }

  function Reversed<T>(s: seq<T>): (r: seq<T>)
    ensures |r| == |s|
    ensures forall i :: 0 <= i < |s| ==> r[i] == s[|s| - 1 - i]
  {
    if s == [] then [] else [s[|s| - 1]] + Reversed(s[..|s| - 1])
  }

  /** Swaps from both ends inward. */
  method ReverseInPlace<T>(a: array<T>)
    modifies a
    ensures a[..] == Reversed(old(a[..]))
  {
    var i, j := 0, a.Length - 1;
    while i < j
      invariant 0 <= i <= a.Length && j == a.Length - 1 - i && i <= j + 2
      invariant forall k :: 0 <= k < i || j < k < a.Length ==> a[k] == old(a[a.Length - 1 - k])
      invariant forall k :: i <= k <= j ==> a[k] == old(a[k])
    {
      a[i], a[j] := a[j], a[i];
      i, j := i + 1, j - 1;
    }
  }
}
