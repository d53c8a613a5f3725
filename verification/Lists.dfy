/** The list algorithms the agent leans on: `find_if`, `erase_if`, and what erasing and
    sorting keep. */
module Lists {

  /** `std::ranges::find_if`: the first hit. */
  method FindFirst<T>(s: seq<T>, p: T -> bool) returns (i: nat)
    ensures i <= |s| && (i < |s| ==> p(s[i]))
    ensures forall j :: 0 <= j < i ==> !p(s[j])
  {
    i := 0;
    while i < |s| && !p(s[i])
      invariant i <= |s|
      invariant forall j :: 0 <= j < i ==> !p(s[j])
    {
      i := i + 1;
    }
  }

  /** `std::erase_if`, given what stays. */
  function Filter<T(!new)>(s: seq<T>, keep: T -> bool): (r: seq<T>)
    ensures |r| <= |s|
    ensures forall x :: x in r <==> x in s && keep(x)
  {
    if s == [] then []
    else
      var rest := Filter(s[..|s| - 1], keep);
      assert s == s[..|s| - 1] + [s[|s| - 1]];
      if keep(s[|s| - 1]) then rest + [s[|s| - 1]] else rest
  }

  /** Elements that stay keep their order. */
  lemma {:induction false} FilterOrder<T(!new)>(s: seq<T>, keep: T -> bool, i: nat, j: nat) returns (k: nat, m: nat)
    requires i < j < |Filter(s, keep)|
    ensures k < m < |s| && s[k] == Filter(s, keep)[i] && s[m] == Filter(s, keep)[j]
  {
    var rest := Filter(s[..|s| - 1], keep);
    if j < |rest| {
      k, m := FilterOrder(s[..|s| - 1], keep, i, j);
    } else {
      assert rest[i] in s[..|s| - 1];
      k :| 0 <= k < |s| - 1 && s[..|s| - 1][k] == rest[i];
      m := |s| - 1;
    }
  }

  ghost predicate Pairwise<T(!new)>(s: seq<T>, r: (T, T) -> bool)
  {
    forall i, j :: 0 <= i < j < |s| ==> r(s[i], s[j])
  }

  lemma FilterPairwise<T(!new)>(s: seq<T>, keep: T -> bool, r: (T, T) -> bool)
    requires Pairwise(s, r)
    ensures Pairwise(Filter(s, keep), r)
  {
    var f := Filter(s, keep);
    forall i, j | 0 <= i < j < |f| ensures r(f[i], f[j]) {
      var k, m := FilterOrder(s, keep, i, j);
    }
  }

  lemma {:induction false} TwoPlaces<T>(s: seq<T>, x: T) returns (i: nat, j: nat)
    requires multiset(s)[x] >= 2
    ensures i < j < |s| && s[i] == x && s[j] == x
  {
    var last := |s| - 1;
    assert s == s[..last] + [s[last]];
    if s[last] == x {
      assert x in multiset(s[..last]);
      i :| 0 <= i < last && s[i] == x;
      j := last;
    } else {
      i, j := TwoPlaces(s[..last], x);
    }
  }

  /** A symmetric relation between all pairs survives every rearrangement. */
  lemma PermutationPairwise<T(!new)>(s: seq<T>, t: seq<T>, r: (T, T) -> bool)
    requires multiset(s) == multiset(t) && Pairwise(s, r)
    requires forall x, y :: r(x, y) ==> r(y, x)
    ensures Pairwise(t, r)
  {
    forall i, j | 0 <= i < j < |t| ensures r(t[i], t[j]) {
      if t[i] == t[j] {
        assert t == t[..i] + [t[i]] + t[i + 1..j] + [t[j]] + t[j + 1..];
        var k, m := TwoPlaces(s, t[i]);
      } else {
        assert t[i] in multiset(s) && t[j] in multiset(s);
        var k :| 0 <= k < |s| && s[k] == t[i];
        var m :| 0 <= m < |s| && s[m] == t[j];
      }
    }
  }

  lemma PermutationMembers<T(!new)>(s: seq<T>, t: seq<T>)
    requires multiset(s) == multiset(t)
    ensures forall x :: x in s <==> x in t
  {
    forall x ensures x in s <==> x in t {
      assert x in s <==> x in multiset(s);
      assert x in t <==> x in multiset(t);
    }
  }
}
