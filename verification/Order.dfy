/** Lexicographic comparison and sorting: the contracts of the standard library
    algorithms that the sources call with their own comparators. */
module Order {

  /** What `std::sort` demands of its comparator: a strict weak ordering. */
  ghost predicate WeakOrder<T(!new)>(less: (T, T) -> bool)
  {
    && (forall a, b :: less(a, b) ==> !less(b, a))
    && (forall a, b, c :: less(a, c) ==> less(a, b) || less(b, c))
  }

  ghost predicate TotalOrder<T(!new)>(less: (T, T) -> bool)
  {
    && WeakOrder(less)
    && (forall a, b :: a == b || less(a, b) || less(b, a))
  }

  /** `std::lexicographical_compare`. */
  predicate LexLess<T>(x: seq<T>, y: seq<T>, less: (T, T) -> bool)
  {
    if y == [] then false
    else if x == [] then true
    else if less(x[0], y[0]) then true
    else if less(y[0], x[0]) then false
    else LexLess(x[1..], y[1..], less)
  }

  function Reverse<T>(s: seq<T>): (r: seq<T>)
    ensures |r| == |s|
  {
    seq(|s|, i requires 0 <= i < |s| => s[|s| - 1 - i])
  }

  lemma ReverseInjective<T>(x: seq<T>, y: seq<T>)
    requires Reverse(x) == Reverse(y)
    ensures x == y
  {
    assert |x| == |Reverse(x)| == |y|;
    forall i | 0 <= i < |x| ensures x[i] == y[i] {
      assert Reverse(x)[|x| - 1 - i] == x[i];
      assert Reverse(y)[|y| - 1 - i] == y[i];
    }
  }

  /** A suffix, read backwards, is a prefix of the whole read backwards. */
  lemma ReverseSuffix<T>(x: seq<T>, k: nat)
    requires k <= |x|
    ensures Reverse(x[k..]) == Reverse(x)[..|x| - k]
  {
  }

  lemma {:induction false} LexAsymmetric<T(!new)>(x: seq<T>, y: seq<T>, less: (T, T) -> bool)
    requires WeakOrder(less) && LexLess(x, y, less)
    ensures !LexLess(y, x, less)
  {
    if x != [] && !less(x[0], y[0]) { LexAsymmetric(x[1..], y[1..], less); }
  }

  lemma {:induction false} LexComparable<T(!new)>(x: seq<T>, y: seq<T>, z: seq<T>, less: (T, T) -> bool)
    requires WeakOrder(less) && LexLess(x, z, less)
    ensures LexLess(x, y, less) || LexLess(y, z, less)
  {
    if x != [] && y != [] && !less(x[0], y[0]) && !less(y[0], z[0]) {
      if !less(x[0], z[0]) {
        LexComparable(x[1..], y[1..], z[1..], less);
      }
    }
  }

  lemma {:induction false} LexTrichotomy<T(!new)>(x: seq<T>, y: seq<T>, less: (T, T) -> bool)
    requires TotalOrder(less)
    ensures x == y || LexLess(x, y, less) || LexLess(y, x, less)
  {
    if x != [] && y != [] {
      LexTrichotomy(x[1..], y[1..], less);
      assert x == [x[0]] + x[1..] && y == [y[0]] + y[1..];
    }
  }

  /** A proper prefix comes first: this is what lets a search over ever shorter
      suffixes shrink its range and never grow it again. */
  lemma {:induction false} LexPrefix<T(!new)>(x: seq<T>, n: nat, less: (T, T) -> bool)
    requires WeakOrder(less) && n < |x|
    ensures LexLess(x[..n], x, less)
  {
    if n > 0 {
      LexPrefix(x[1..], n - 1, less);
      assert x[..n][1..] == x[1..][..n - 1];
    }
  }

  lemma LexWeakOrder<T(!new)>(less: (T, T) -> bool)
    requires WeakOrder(less)
    ensures WeakOrder((x: seq<T>, y: seq<T>) => LexLess(x, y, less))
  {
    var lex := (x: seq<T>, y: seq<T>) => LexLess(x, y, less);
    forall x: seq<T>, y: seq<T> ensures lex(x, y) ==> !lex(y, x) {
      if lex(x, y) { LexAsymmetric(x, y, less); }
    }
    forall x: seq<T>, y: seq<T>, z: seq<T> ensures lex(x, z) ==> lex(x, y) || lex(y, z) {
      if lex(x, z) { LexComparable(x, y, z, less); }
    }
  }

  ghost predicate SortedBy<T>(s: seq<T>, less: (T, T) -> bool)
  {
    forall i, j :: 0 <= i < j < |s| ==> !less(s[j], s[i])
  }

  /** Sorted by `less`, and where `less` does not tell two elements apart, by `tie`. */
  ghost predicate SortedByThen<T>(s: seq<T>, less: (T, T) -> bool, tie: (T, T) -> bool)
  {
    forall i, j :: 0 <= i < j < |s| ==> less(s[i], s[j]) || (!less(s[j], s[i]) && !tie(s[j], s[i]))
  }

  /** What the loop of an insertion sort has done with a prefix. */
  ghost predicate Inserted<T(!new)>(s: seq<T>, r: seq<T>, less: (T, T) -> bool, tie: (T, T) -> bool)
  {
    && |r| == |s| && multiset(r) == multiset(s) && SortedByThen(r, less, tie)
    && forall e :: e in r ==> e in s
  }

  /** `std::stable_sort`. Stability is stated by what it is used for: an earlier
      order survives among elements that `less` does not tell apart. */
  method StableSort<T(!new)>(s: seq<T>, less: (T, T) -> bool, ghost tie: (T, T) -> bool) returns (r: seq<T>)
    requires WeakOrder(less)
    requires SortedBy(s, tie)
    ensures multiset(r) == multiset(s) && |r| == |s|
    ensures SortedBy(r, less) && SortedByThen(r, less, tie)
  {
    hide WeakOrder, SortedBy;
    r := [];
    assert s[..0] == [];
    for i := 0 to |s|
      invariant Inserted(s[..i], r, less, tie)
    {
      hide SortedByThen, Inserted;
      var p := |r|;
      while p > 0 && less(s[i], r[p - 1])
        invariant 0 <= p <= |r|
        invariant forall j :: p <= j < |r| ==> less(s[i], r[j])
      {
        p := p - 1;
      }
      Insertion(s, i, r, p, less, tie);
      r := r[..p] + [s[i]] + r[p..];
    }
    assert s[..|s|] == s;
    ThenSorted(r, less, tie);
  }

  lemma ThenSorted<T(!new)>(r: seq<T>, less: (T, T) -> bool, tie: (T, T) -> bool)
    requires WeakOrder(less) && SortedByThen(r, less, tie)
    ensures SortedBy(r, less)
  {
  }

  /** One insertion, wherever the inner loop has stopped. */
  lemma Insertion<T(!new)>(s: seq<T>, i: nat, r: seq<T>, p: nat, less: (T, T) -> bool, tie: (T, T) -> bool)
    requires WeakOrder(less) && SortedBy(s, tie) && i < |s| && Inserted(s[..i], r, less, tie)
    requires p <= |r| && (p > 0 ==> !less(s[i], r[p - 1])) && forall j :: p <= j < |r| ==> less(s[i], r[j])
    ensures Inserted(s[..i + 1], r[..p] + [s[i]] + r[p..], less, tie)
  {
    ThenSorted(r, less, tie);
    BeforeInsertion(r, p, s[i], less);
    AfterInsertion(s, i, r, p, less, tie);
    InsertionMembers(r, p, s[i]);
    hide SortedBy, SortedByThen, WeakOrder;
    assert s[..i + 1] == s[..i] + [s[i]];
  }

  lemma InsertionMembers<T(!new)>(r: seq<T>, p: nat, x: T)
    requires p <= |r|
    ensures multiset(r[..p] + [x] + r[p..]) == multiset(r) + multiset{x}
    ensures forall e :: e in r[..p] + [x] + r[p..] ==> e == x || e in r
  {
    assert r == r[..p] + r[p..];
  }

  lemma BeforeInsertion<T(!new)>(r: seq<T>, p: nat, x: T, less: (T, T) -> bool)
    requires WeakOrder(less) && SortedBy(r, less)
    requires p <= |r| && (p > 0 ==> !less(x, r[p - 1]))
    ensures forall j :: 0 <= j < p ==> !less(x, r[j])
  {
    forall j | 0 <= j < p ensures !less(x, r[j]) {
      var last := r[p - 1];
      assert j < p - 1 ==> !less(last, r[j]);
    }
  }

  lemma AfterInsertion<T>(s: seq<T>, i: nat, r: seq<T>, p: nat, less: (T, T) -> bool, tie: (T, T) -> bool)
    requires i < |s| && SortedBy(s, tie) && p <= |r|
    requires SortedByThen(r, less, tie)
    requires forall e :: e in r ==> e in s[..i]
    requires forall j :: 0 <= j < p ==> !less(s[i], r[j])
    requires forall j :: p <= j < |r| ==> less(s[i], r[j])
    ensures SortedByThen(r[..p] + [s[i]] + r[p..], less, tie)
  {
    var q := r[..p] + [s[i]] + r[p..];
    forall a, b | 0 <= a < b < |q|
      ensures less(q[a], q[b]) || (!less(q[b], q[a]) && !tie(q[b], q[a]))
    {
      if b == p {
        assert q[a] == r[a] && r[a] in s[..i];
      } else if a != p {
        var a', b' := if a < p then a else a - 1, if b < p then b else b - 1;
        assert q[a] == r[a'] && q[b] == r[b'];
      } else {
        assert q[b] == r[b - 1];
      }
    }
  }

  /** `std::sort`: some sorted permutation. */
  method Sort<T(!new)>(s: seq<T>, less: (T, T) -> bool) returns (r: seq<T>)
    requires WeakOrder(less)
    ensures multiset(r) == multiset(s) && |r| == |s|
    ensures SortedBy(r, less)
  {
    r := StableSort(s, less, (a, b) => false);
  }
}
