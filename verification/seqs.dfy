/** The `Vec` primitives the engine relies on, as functions on sequences. */
module Seqs {
  import opened Wrappers

  /**
    `Vec::swap_remove(i)`: the element at `i` is taken out and the last
    element moves into the gap, so every other position keeps its element.
   */
  function SwapRemove<T>(s: seq<T>, i: nat): (r: seq<T>)
    requires i < |s|
    ensures |r| == |s| - 1
    ensures forall k :: 0 <= k < |r| && k != i ==> r[k] == s[k]
    ensures i < |r| ==> r[i] == s[|s| - 1]
    ensures multiset(r) == multiset(s) - multiset{s[i]}
  {
    var last := |s| - 1;
    if i == last then
      assert s == s[..last] + [s[last]];
      s[..last]
    else
      assert s == s[..i] + [s[i]] + s[i + 1..last] + [s[last]];
      s[..i] + [s[last]] + s[i + 1..last]
  }

  /** `slice::swap(i, j)`: exchanges two positions. */
  function Swap<T>(s: seq<T>, i: nat, j: nat): (r: seq<T>)
    requires i < |s| && j < |s|
    ensures |r| == |s|
    ensures r[i] == s[j] && r[j] == s[i]
    ensures forall k :: 0 <= k < |s| && k != i && k != j ==> r[k] == s[k]
    ensures multiset(r) == multiset(s)
  {
    s[i := s[j]][j := s[i]]
  }

  /** Number of occurrences of `x` in `s`, counted front to back. */
  function Count<T(==)>(s: seq<T>, x: T): (n: nat)
    ensures n == multiset(s)[x]
    ensures n <= |s|
  {
    if |s| == 0 then 0
    else
      assert s == [s[0]] + s[1..];
      (if s[0] == x then 1 else 0) + Count(s[1..], x)
  }

  /** The first position holding `x`, if any: a front-to-back linear search. */
  function FirstIndex<T(==)>(s: seq<T>, x: T): (r: Option<nat>)
    ensures r.None? <==> x !in s
    ensures r.Some? ==> r.value < |s| && s[r.value] == x
    ensures r.Some? ==> forall j :: 0 <= j < r.value ==> s[j] != x
  {
    FirstIndexFrom(s, x, 0)
  }

  /** The linear search, resumed at position `i` once no earlier position matched. */
  function FirstIndexFrom<T(==)>(s: seq<T>, x: T, i: nat): (r: Option<nat>)
    requires i <= |s|
    requires forall j :: 0 <= j < i ==> s[j] != x
    ensures r.None? <==> x !in s
    ensures r.Some? ==> i <= r.value < |s| && s[r.value] == x
    ensures r.Some? ==> forall j :: 0 <= j < r.value ==> s[j] != x
    decreases |s| - i
  {
    if i == |s| then None
    else if s[i] == x then Some(i)
    else FirstIndexFrom(s, x, i + 1)
  }
}
