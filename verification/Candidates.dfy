/** Candidates, candidate priorities and pair priorities (sections 5.1.2 and 6.1.2.3 of RFC 8445),
    and the case-insensitive comparison behind every redundancy test. */
module Candidates {
  import opened Wire

  type Text = seq<byte>

  // ---- case-insensitive equality ----

  function Lower(c: byte): byte { if 65 <= c <= 90 then c + 32 else c }

  function Fold(t: Text): Text { seq(|t|, i requires 0 <= i < |t| => Lower(t[i])) }

  predicate SameIgnoringCase(a: Text, b: Text) { Fold(a) == Fold(b) }

  /** `nceq`: a fast loop over the equal prefix, then one that folds case. */
  method Nceq(a: Text, b: Text) returns (r: bool)
    ensures r <==> SameIgnoringCase(a, b)
  {
    if |a| != |b| {
      assert |Fold(a)| != |Fold(b)|;
      return false;
    }
    var i := 0;
    while i < |a| && a[i] == b[i]
      invariant 0 <= i <= |a|
      invariant forall j :: 0 <= j < i ==> Lower(a[j]) == Lower(b[j])
    {
      i := i + 1;
    }
    while i < |a|
      invariant 0 <= i <= |a|
      invariant forall j :: 0 <= j < i ==> Lower(a[j]) == Lower(b[j])
    {
      if Lower(a[i]) != Lower(b[i]) {
        assert Fold(a)[i] != Fold(b)[i];
        return false;
      }
      i := i + 1;
    }
    return true;
  }

  // ---- candidates ----

  datatype Kind = Host | Srflx | Prflx | Relay

  type Ip = s: seq<byte> | |s| == 4 || |s| == 16 witness [0, 0, 0, 0]
  datatype Endpoint = Endpoint(ip: Ip, port: u16)

  /** A transport is known only by its identity. */
  datatype Candidate = Candidate(foundation: Text, component: byte, transportType: Text, priority: u32,
                                 endpoint: Endpoint, kind: Kind, related: Option<Endpoint>, transport: nat)

  function TypePreference(k: Kind): nat
  {
    match k case Host => 126 case Srflx => 100 case Prflx => 110 case Relay => 0
  }

  /** `candidate_priority`, in 32-bit arithmetic. */
  function CandidatePriority(component: byte, k: Kind, preference: u32): u32
  {
    (0x100_0000 * TypePreference(k) + 0x100 * preference + (256 - component)) % 0x1_0000_0000
  }

  /** For components 1..255 and 16-bit preferences nothing wraps. */
  lemma CandidatePriorityParts(component: byte, k: Kind, preference: u16)
    requires 1 <= component
    ensures 1 <= 0x100 * preference + (256 - component) < 0x100_0000
    ensures CandidatePriority(component, k, preference)
         == 0x100_0000 * TypePreference(k) + (0x100 * preference + (256 - component))
    ensures 0 < CandidatePriority(component, k, preference) < 0x8000_0000
  {
  }

  lemma {:induction false} Gap(base: nat, h1: nat, h2: nat)
    requires h1 < h2
    ensures base * h1 + base <= base * h2
    decreases h2
  {
    if h1 + 1 < h2 { Gap(base, h1, h2 - 1); }
  }

  /** Two numbers with a high digit and a low digit below `base` compare digit by digit. */
  lemma DigitOrder(base: nat, h1: nat, l1: nat, h2: nat, l2: nat)
    requires l1 < base && l2 < base
    ensures base * h1 + l1 < base * h2 + l2 <==> h1 < h2 || (h1 == h2 && l1 < l2)
    ensures base * h1 + l1 == base * h2 + l2 <==> h1 == h2 && l1 == l2
  {
    if h1 < h2 {
      Gap(base, h1, h2);
    } else if h2 < h1 {
      Gap(base, h2, h1);
    }
  }

  /** A priority stays below 2^31 and orders by type, then preference, then lower component. */
  lemma CandidatePriorityOrder(c1: byte, k1: Kind, p1: u16, c2: byte, k2: Kind, p2: u16)
    requires 1 <= c1 && 1 <= c2
    ensures 0 < CandidatePriority(c1, k1, p1) < 0x8000_0000
    ensures CandidatePriority(c1, k1, p1) < CandidatePriority(c2, k2, p2)
            <==> TypePreference(k1) < TypePreference(k2)
                 || (TypePreference(k1) == TypePreference(k2) && (p1 < p2 || (p1 == p2 && c1 > c2)))
  {
    hide CandidatePriority, TypePreference;
    CandidatePriorityParts(c1, k1, p1);
    CandidatePriorityParts(c2, k2, p2);
    var r1: int, r2: int := 0x100 * p1 + (256 - c1), 0x100 * p2 + (256 - c2);
    DigitOrder(0x100_0000, TypePreference(k1), r1, TypePreference(k2), r2);
    assert r1 < r2 <==> p1 < p2 || (p1 == p2 && c1 > c2);
  }

  // ---- pairs ----

  /** `compute_priority`, in 64-bit arithmetic. */
  function PairPriority(local: u32, remote: u32, controlling: bool): u64
  {
    var g: int := if controlling then local else remote;
    var d: int := if controlling then remote else local;
    ((if g < d then g else d) * 0x1_0000_0000 + 2 * (if g < d then d else g) + (if g > d then 1 else 0))
    % 0x1_0000_0000_0000_0000
  }

  /** The two sides of a pair compute the same number when their roles are opposite. */
  lemma MirroredPairsAgree(x: u32, y: u32, controlling: bool)
    ensures PairPriority(x, y, controlling) == PairPriority(y, x, !controlling)
  {
  }

  function Least(x: u32, y: u32): u32 { if x < y then x else y }
  function Greatest(x: u32, y: u32): u32 { if x < y then y else x }
  function Ahead(local: u32, remote: u32, controlling: bool): nat
  {
    if (if controlling then local > remote else remote > local) then 1 else 0
  }

  lemma PairPriorityParts(local: u32, remote: u32, controlling: bool)
    requires local < 0x8000_0000 && remote < 0x8000_0000
    ensures PairPriority(local, remote, controlling)
         == 0x1_0000_0000 * Least(local, remote) + (2 * Greatest(local, remote) + Ahead(local, remote, controlling))
    ensures 2 * Greatest(local, remote) + Ahead(local, remote, controlling) < 0x1_0000_0000
    ensures PairPriority(local, remote, controlling) < 0x8000_0000_0000_0000
  {
  }

  /** Below 2^31, the range RFC 8445 allows, the pair priority stays below 2^63 and determines
      both priorities. */
  lemma PairPriorityInjective(l1: u32, r1: u32, l2: u32, r2: u32, controlling: bool)
    requires l1 < 0x8000_0000 && r1 < 0x8000_0000 && l2 < 0x8000_0000 && r2 < 0x8000_0000
    ensures PairPriority(l1, r1, controlling) < 0x8000_0000_0000_0000
    ensures PairPriority(l1, r1, controlling) == PairPriority(l2, r2, controlling) <==> l1 == l2 && r1 == r2
  {
    hide PairPriority;
    PairPriorityParts(l1, r1, controlling);
    PairPriorityParts(l2, r2, controlling);
    DigitOrder(0x1_0000_0000, Least(l1, r1), 2 * Greatest(l1, r1) + Ahead(l1, r1, controlling),
               Least(l2, r2), 2 * Greatest(l2, r2) + Ahead(l2, r2, controlling));
  }

  /** Beyond that range two different pairs can share a priority. */
  lemma LargePrioritiesCollide()
    ensures PairPriority(0, 0x8000_0001, true) == PairPriority(1, 1, true)
  {
  }

  /** A pair's foundation does not depend on which side is which. */
  function PairFoundation(local: Text, remote: Text): Text
  {
    if TextGreater(local, remote) then remote + local else local + remote
  }

  predicate TextGreater(a: Text, b: Text)
  {
    if a == [] then false
    else if b == [] then true
    else a[0] > b[0] || (a[0] == b[0] && TextGreater(a[1..], b[1..]))
  }

  lemma {:induction false} GreaterOrEqual(a: Text, b: Text)
    ensures a == b || (TextGreater(a, b) != TextGreater(b, a))
  {
    if a != [] && b != [] {
      GreaterOrEqual(a[1..], b[1..]);
      assert a == [a[0]] + a[1..] && b == [b[0]] + b[1..];
    }
  }

  lemma FoundationSymmetric(a: Text, b: Text)
    ensures PairFoundation(a, b) == PairFoundation(b, a)
  {
    GreaterOrEqual(a, b);
  }

  /** `can_pair_with`. */
  predicate CanPair(local: Candidate, remote: Candidate)
  {
    && local.kind != Srflx && local.component == remote.component
    && |local.endpoint.ip| == |remote.endpoint.ip|
    && SameIgnoringCase(local.transportType, remote.transportType)
  }
}
