// Generic list operations the engine takes from LINQ and `List<T>`:
// `Select`, `Where`, `List.Remove` and `List.RemoveAll`, with the facts
// about counted contents that the engine's order-insensitive equalities
// rest on.

module Lists {

  /** Concatenation is associative. */
  lemma ConcatAssoc<T>(a: seq<T>, b: seq<T>, c: seq<T>)
    ensures a + b + c == a + (b + c)
  {
  }

  /** A non-empty sequence is its front with its last element appended. */
  lemma FrontLast<T>(s: seq<T>)
    requires |s| > 0
    ensures s[..|s| - 1] + [s[|s| - 1]] == s
  {
  }

  /** `Select`: `f` applied to every element, in order. */
  function Map<A, B>(s: seq<A>, f: A -> B): (r: seq<B>)
    ensures |r| == |s| && forall i :: 0 <= i < |s| ==> r[i] == f(s[i])
  {
    seq(|s|, i requires 0 <= i < |s| => f(s[i]))
  }

  /** `Where`: the elements `keep` accepts, in order. */
  function Filter<T(!new)>(s: seq<T>, keep: T -> bool): (r: seq<T>)
    ensures forall x :: multiset(r)[x] == if keep(x) then multiset(s)[x] else 0
    ensures forall x :: x in r ==> keep(x)
  {
    if s == [] then []
    else
      assert s == [s[0]] + s[1..];
      var rest := Filter(s[1..], keep);
      assert forall x :: x in rest ==> x in multiset(rest);
      if keep(s[0]) then [s[0]] + rest else rest
  }

  /** Keeping and dropping by complementary tests splits the elements between the two. */
  lemma FilterSplit<T(!new)>(s: seq<T>, keep: T -> bool, drop: T -> bool)
    requires forall x :: drop(x) == !keep(x)
    ensures multiset(Filter(s, keep)) + multiset(Filter(s, drop)) == multiset(s)
  {
    var a := multiset(Filter(s, keep));
    var b := multiset(Filter(s, drop));
    forall x ensures (a + b)[x] == multiset(s)[x] {
    }
  }

  /** `List.RemoveAll(x => x == y)`: every element equal to `y` dropped, the others kept in order. */
  function RemoveAll<T(==,!new)>(s: seq<T>, y: T): (r: seq<T>)
    ensures forall x :: multiset(r)[x] == if x == y then 0 else multiset(s)[x]
    ensures y !in r
  {
    Filter(s, x => x != y)
  }

  /** The position of the first element equal to `y`, or -1. */
  function FirstIndex<T(==)>(s: seq<T>, y: T): (r: int)
    ensures -1 <= r < |s|
    ensures r == -1 <==> y !in s
    ensures r >= 0 ==> s[r] == y && y !in s[..r]
  {
    if s == [] then -1
    else if s[0] == y then 0
    else
      var k := FirstIndex(s[1..], y);
      assert s == [s[0]] + s[1..];
      if k == -1 then -1
      else
        assert s[..k + 1] == [s[0]] + s[1..][..k];
        k + 1
  }

  /** `FindIndex` / `FirstOrDefault`: the position of the first element `p` accepts, or -1. */
  function FindFirst<T>(s: seq<T>, p: T -> bool): (r: int)
    ensures -1 <= r < |s|
    ensures r == -1 <==> forall i :: 0 <= i < |s| ==> !p(s[i])
    ensures r >= 0 ==> p(s[r]) && forall j :: 0 <= j < r ==> !p(s[j])
  {
    if s == [] then -1
    else if p(s[0]) then 0
    else
      var k := FindFirst(s[1..], p);
      assert forall j :: 1 <= j < |s| ==> s[j] == s[1..][j - 1];
      if k == -1 then -1 else k + 1
  }

  /** `List.Remove(y)`: the first element equal to `y` dropped, if any. */
  function RemoveFirst<T(==)>(s: seq<T>, y: T): (r: seq<T>)
    ensures y in s ==> multiset(r) == multiset(s) - multiset{y} && |r| == |s| - 1
    ensures y !in s ==> r == s
  {
    var k := FirstIndex(s, y);
    if k < 0 then s
    else
      assert s == s[..k] + [s[k]] + s[k + 1..];
      s[..k] + s[k + 1..]
  }

  /** Whether `x` has the same key as `y`. */
  function SameKey<T, K(==)>(key: T -> K, y: T): T -> bool
  {
    x => key(x) == key(y)
  }

  /**
   * `List.Remove(y)` where the element type's equality compares keys: the
   * first element whose key is that of `y` dropped, if any.
   */
  function RemoveFirstBy<T, K(==)>(s: seq<T>, key: T -> K, y: T): (r: seq<T>)
    ensures var k := FindFirst(s, SameKey(key, y));
      (k < 0 ==> r == s) &&
      (k >= 0 ==> |r| == |s| - 1 && multiset(r) + multiset{s[k]} == multiset(s) && r[..k] == s[..k])
  {
    var k := FindFirst(s, SameKey(key, y));
    if k < 0 then s
    else
      assert s == s[..k] + [s[k]] + s[k + 1..];
      s[..k] + s[k + 1..]
  }

  /** When no lower element shares the top one's key, removing the top one drops the last position. */
  lemma RemoveLastBy<T, K>(s: seq<T>, key: T -> K)
    requires |s| > 0
    requires forall i :: 0 <= i < |s| - 1 ==> key(s[i]) != key(s[|s| - 1])
    ensures RemoveFirstBy(s, key, s[|s| - 1]) == s[..|s| - 1]
  {
    var n := |s| - 1;
    assert SameKey(key, s[n])(s[n]);
    var k := FindFirst(s, SameKey(key, s[n]));
    assert k == n;
    assert s[n + 1..] == [];
  }

  /** When the top element occurs nowhere lower, removing it drops the last position. */
  lemma RemoveLast<T>(s: seq<T>)
    requires |s| > 0 && s[|s| - 1] !in s[..|s| - 1]
    ensures RemoveFirst(s, s[|s| - 1]) == s[..|s| - 1]
  {
    var n := |s| - 1;
    forall i | 0 <= i < n
      ensures s[i] != s[n]
    {
      assert s[..n][i] == s[i];
    }
    var k := FirstIndex(s, s[n]);
    assert s[k] == s[n];
    assert k == n;
    assert s[n + 1..] == [];
  }

  /** Mapping respects counted contents: a reordering maps to a reordering. */
  lemma {:induction false} MapPermutation<A, B>(s: seq<A>, t: seq<A>, f: A -> B)
    requires multiset(s) == multiset(t)
    ensures multiset(Map(s, f)) == multiset(Map(t, f))
    decreases |s|
  {
    if s != [] {
      var x := s[0];
      assert x in multiset(t);
      var j := FirstIndex(t, x);
      var t' := t[..j] + t[j + 1..];
      CutAt(t, j);
      assert s == [x] + s[1..];
      assert multiset(s[1..]) == multiset(s) - multiset{x};
      assert multiset(t') == multiset(t) - multiset{x};
      MapPermutation(s[1..], t', f);
      MapCut(t, j, f);
      MapCutHead(s, f);
    }
  }

  /** Cutting out one position removes exactly that element from the counted contents. */
  lemma CutAt<T>(s: seq<T>, j: int)
    requires 0 <= j < |s|
    ensures multiset(s[..j] + s[j + 1..]) == multiset(s) - multiset{s[j]}
  {
    assert s == s[..j] + [s[j]] + s[j + 1..];
  }

  /** The image of a list with one position cut out, counted. */
  lemma MapCut<A, B>(s: seq<A>, j: int, f: A -> B)
    requires 0 <= j < |s|
    ensures multiset(Map(s, f)) == multiset(Map(s[..j] + s[j + 1..], f)) + multiset{f(s[j])}
  {
    var m := Map(s, f);
    assert m == m[..j] + [m[j]] + m[j + 1..];
    assert Map(s[..j] + s[j + 1..], f) == m[..j] + m[j + 1..];
  }

  lemma MapCutHead<A, B>(s: seq<A>, f: A -> B)
    requires s != []
    ensures multiset(Map(s, f)) == multiset(Map(s[1..], f)) + multiset{f(s[0])}
  {
    assert Map(s, f) == [f(s[0])] + Map(s[1..], f);
  }
}
