/** The agent's lists as values, and what holds of them in every reachable state. */
module AgentState {
  import opened Wire
  import opened Order
  import opened Lists
  import opened Candidates

  datatype PairState = Frozen | Waiting | InProgress | Succeeded | Failed
  datatype Pair = Pair(local: Candidate, remote: Candidate, priority: u64, state: PairState)

  /** Pairs are shared between the lists, so the lists hold identities and this map the objects. */
  type Pairs = map<nat, Pair>

  datatype CheckTask = CheckTask(pair: nat, useCandidate: bool)
  datatype ValidPair = ValidPair(pair: nat, source: Option<nat>, nominated: bool, generation: u32)

  /** A connectivity check under way: what its task wanted, what its last request said, how many
      requests it has sent, and whether its transaction is still indexed by pair. */
  datatype Check = Check(task: CheckTask, useCandidate: bool, controlling: bool, tries: nat, linked: bool)

  /** A request that has been answered and not yet acted on. */
  datatype Handling = Handling(transport: nat, from: Endpoint, priority: u32, useCandidate: bool)

  datatype Phase = Init | Gathering | Connecting | Connected | Closed

  datatype Config = Config(trickle: bool, components: byte, transport: Text, maxPending: nat)

  datatype State = State(
    pairs: Pairs, nextId: nat, checkList: seq<nat>, queue: seq<CheckTask>, validList: seq<ValidPair>,
    checks: seq<Check>, handling: seq<Handling>, locals: seq<Candidate>, remotes: seq<Candidate>,
    controlling: bool, tie: u64, generation: u32, phase: Phase, lite: bool)

  // ---- reading a pair ----

  function Formula(p: Pair, controlling: bool): u64
  {
    PairPriority(p.local.priority, p.remote.priority, controlling)
  }

  function Foundation(p: Pair): Text { PairFoundation(p.local.foundation, p.remote.foundation) }

  function Component(p: Pair): byte { p.local.component }

  /** What every redundancy test compares. */
  function Ends(p: Pair): (Endpoint, Endpoint, Text)
  {
    (p.local.endpoint, p.remote.endpoint, Fold(p.local.transportType))
  }

  function PriorityOf(pairs: Pairs, id: nat): u64 { if id in pairs then pairs[id].priority else 0 }

  function Higher(pairs: Pairs): (nat, nat) -> bool
  {
    (a: nat, b: nat) => PriorityOf(pairs, a) > PriorityOf(pairs, b)
  }

  function HigherValid(pairs: Pairs): (ValidPair, ValidPair) -> bool
  {
    (v: ValidPair, w: ValidPair) => PriorityOf(pairs, v.pair) > PriorityOf(pairs, w.pair)
  }

  lemma HigherIsOrder(pairs: Pairs)
    ensures WeakOrder(Higher(pairs)) && WeakOrder(HigherValid(pairs))
  {
  }

  // ---- the invariant ----

  ghost predicate InStore(pairs: Pairs, ids: seq<nat>) { forall id :: id in ids ==> id in pairs }

  ghost predicate Refs(s: State)
  {
    && (forall id :: id in s.pairs ==> id < s.nextId)
    && InStore(s.pairs, s.checkList)
    && (forall t :: t in s.queue ==> t.pair in s.pairs)
    && (forall k :: k in s.checks ==> k.task.pair in s.pairs)
  }

  ghost predicate PrioritiesOk(pairs: Pairs, ids: seq<nat>, controlling: bool)
  {
    forall id :: id in ids && id in pairs ==> pairs[id].priority == Formula(pairs[id], controlling)
  }

  ghost predicate RemoteKnown(remotes: seq<Candidate>, p: Pair)
  {
    exists r :: r in remotes && r.endpoint == p.remote.endpoint && SameIgnoringCase(r.transportType, p.local.transportType)
  }

  ghost predicate RemotesKnown(pairs: Pairs, ids: seq<nat>, remotes: seq<Candidate>)
  {
    forall id :: id in ids && id in pairs ==> RemoteKnown(remotes, pairs[id])
  }

  /** Two entries of the valid list differ in endpoints or transport, and are not both nominated
      for one component. */
  function Apart(pairs: Pairs): (ValidPair, ValidPair) -> bool
  {
    (v: ValidPair, w: ValidPair) =>
      v.pair in pairs && w.pair in pairs ==>
        Ends(pairs[v.pair]) != Ends(pairs[w.pair])
        && !(v.nominated && w.nominated && Component(pairs[v.pair]) == Component(pairs[w.pair]))
  }

  ghost predicate EntryOk(pairs: Pairs, v: ValidPair, generation: u32)
  {
    && v.pair in pairs
    && (v.source.Some? ==> v.source.value in pairs)
    && (!v.nominated ==> v.generation == generation && v.source.Some?)
  }

  ghost predicate ValidOk(pairs: Pairs, validList: seq<ValidPair>, generation: u32)
  {
    && (forall v :: v in validList ==> EntryOk(pairs, v, generation))
    && Pairwise(validList, Apart(pairs))
  }

  ghost predicate Core(s: State)
  {
    && Refs(s)
    && PrioritiesOk(s.pairs, s.checkList, s.controlling)
    && RemotesKnown(s.pairs, s.checkList, s.remotes)
    && ValidOk(s.pairs, s.validList, s.generation)
  }

  ghost predicate Inv(c: Config, s: State)
  {
    && Core(s)
    && (c.trickle ==> SortedBy(s.checkList, Higher(s.pairs)))
    && c.components < 255
  }

  // ---- what the small changes keep ----

  /** Only pair states differ. */
  ghost predicate StatesOnly(was: Pairs, now: Pairs)
  {
    was.Keys == now.Keys && forall id :: id in was ==> now[id] == was[id].(state := now[id].state)
  }

  /** Every old pair is still there, untouched. */
  ghost predicate Extends(was: Pairs, now: Pairs)
  {
    forall id :: id in was ==> id in now && now[id] == was[id]
  }

  /** Every old pair still joins the same candidates. */
  ghost predicate Kept(was: Pairs, now: Pairs)
  {
    forall id :: id in was ==> id in now && now[id].local == was[id].local && now[id].remote == was[id].remote
  }

  lemma ValidKept(was: Pairs, now: Pairs, validList: seq<ValidPair>, generation: u32)
    requires Kept(was, now) && ValidOk(was, validList, generation)
    ensures ValidOk(now, validList, generation)
  {
    hide Ends;
    forall v | v in validList ensures EntryOk(now, v, generation) {
      assert EntryOk(was, v, generation);
    }
    forall i, j | 0 <= i < j < |validList| ensures Apart(now)(validList[i], validList[j]) {
      assert EntryOk(was, validList[i], generation) && EntryOk(was, validList[j], generation);
      assert Apart(was)(validList[i], validList[j]);
      SameEnds(was, now, validList[i].pair);
      SameEnds(was, now, validList[j].pair);
    }
  }

  lemma SameEnds(was: Pairs, now: Pairs, id: nat)
    requires Kept(was, now) && id in was
    ensures Ends(now[id]) == Ends(was[id]) && Component(now[id]) == Component(was[id])
  {
  }

  lemma StatesOnlySorted(was: Pairs, now: Pairs, ids: seq<nat>)
    requires StatesOnly(was, now) && SortedBy(ids, Higher(was))
    ensures SortedBy(ids, Higher(now))
  {
    assert forall id :: PriorityOf(now, id) == PriorityOf(was, id);
    forall i, j | 0 <= i < j < |ids| ensures !Higher(now)(ids[j], ids[i]) {
      assert !Higher(was)(ids[j], ids[i]);
    }
  }

  lemma StatesOnlyRemotes(was: Pairs, now: Pairs, ids: seq<nat>, remotes: seq<Candidate>)
    requires StatesOnly(was, now) && RemotesKnown(was, ids, remotes)
    ensures RemotesKnown(now, ids, remotes)
  {
    forall id | id in ids && id in now ensures RemoteKnown(remotes, now[id]) {
      assert RemoteKnown(remotes, was[id]);
    }
  }

  lemma StatesOnlyKeeps(c: Config, s: State, now: Pairs)
    requires StatesOnly(s.pairs, now)
    ensures Core(s) ==> Core(s.(pairs := now))
    ensures Inv(c, s) ==> Inv(c, s.(pairs := now))
  {
    hide ValidOk, RemotesKnown, SortedBy;
    if Core(s) {
      ValidKept(s.pairs, now, s.validList, s.generation);
      StatesOnlyRemotes(s.pairs, now, s.checkList, s.remotes);
      if c.trickle && Inv(c, s) { StatesOnlySorted(s.pairs, now, s.checkList); }
    }
  }

  lemma ExtendsRemotes(was: Pairs, now: Pairs, ids: seq<nat>, remotes: seq<Candidate>)
    requires Extends(was, now) && InStore(was, ids) && RemotesKnown(was, ids, remotes)
    ensures RemotesKnown(now, ids, remotes)
  {
    forall id | id in ids && id in now ensures RemoteKnown(remotes, now[id]) {
      assert RemoteKnown(remotes, was[id]);
    }
  }

  /** A new pair outside the checklist. */
  lemma StoreKeepsCore(s: State, p: Pair)
    requires Core(s)
    ensures Core(s.(pairs := s.pairs[s.nextId := p], nextId := s.nextId + 1))
    ensures Extends(s.pairs, s.pairs[s.nextId := p])
  {
    hide ValidOk, RemotesKnown;
    var now := s.pairs[s.nextId := p];
    ValidKept(s.pairs, now, s.validList, s.generation);
    ExtendsRemotes(s.pairs, now, s.checkList, s.remotes);
  }

  lemma ExtendsSorted(was: Pairs, now: Pairs, ids: seq<nat>)
    requires Extends(was, now) && InStore(was, ids) && SortedBy(ids, Higher(was))
    ensures SortedBy(ids, Higher(now))
  {
    forall i, j | 0 <= i < j < |ids| ensures !Higher(now)(ids[j], ids[i]) {
      assert !Higher(was)(ids[j], ids[i]);
      assert ids[i] in was && ids[j] in was;
    }
  }

  /** A checklist with no other members keeps what a checklist must satisfy. */
  lemma SublistKeepsCore(s: State, ids: seq<nat>)
    requires Core(s) && forall id :: id in ids ==> id in s.checkList
    ensures Core(s.(checkList := ids))
  {
    hide ValidOk, RemoteKnown;
  }

  /** A well-formed pair may join the checklist. */
  lemma JoinKeepsCore(s: State, id: nat)
    requires Core(s) && id in s.pairs
    requires s.pairs[id].priority == Formula(s.pairs[id], s.controlling)
    requires RemoteKnown(s.remotes, s.pairs[id])
    ensures Core(s.(checkList := s.checkList + [id]))
  {
    hide ValidOk, RemoteKnown, Formula;
  }

  lemma FilterSorted<T(!new)>(s: seq<T>, keep: T -> bool, less: (T, T) -> bool)
    requires SortedBy(s, less)
    ensures SortedBy(Filter(s, keep), less)
  {
    var r := (a: T, b: T) => !less(b, a);
    FilterPairwise(s, keep, r);
    forall i, j | 0 <= i < j < |Filter(s, keep)| ensures !less(Filter(s, keep)[j], Filter(s, keep)[i]) {
      assert r(Filter(s, keep)[i], Filter(s, keep)[j]);
    }
  }

  lemma FilterValid(pairs: Pairs, validList: seq<ValidPair>, generation: u32, keep: ValidPair -> bool)
    requires ValidOk(pairs, validList, generation)
    ensures ValidOk(pairs, Filter(validList, keep), generation)
  {
    hide EntryOk, Apart;
    FilterPairwise(validList, keep, Apart(pairs));
  }

  lemma PermuteValid(pairs: Pairs, validList: seq<ValidPair>, sorted: seq<ValidPair>, generation: u32)
    requires ValidOk(pairs, validList, generation) && multiset(sorted) == multiset(validList)
    ensures ValidOk(pairs, sorted, generation)
  {
    hide EntryOk;
    PermutationMembers(validList, sorted);
    PermutationPairwise(validList, sorted, Apart(pairs));
  }

  // ---- forming pairs ----

  predicate Live(p: Pair) { p.state.Waiting? || p.state.Frozen? }

  /** No live pair is redundant with another. */
  function ApartLive(pairs: Pairs): (nat, nat) -> bool
  {
    (a: nat, b: nat) => a in pairs && b in pairs && Live(pairs[a]) && Live(pairs[b]) ==> Ends(pairs[a]) != Ends(pairs[b])
  }

  ghost predicate Pruned(pairs: Pairs, ids: seq<nat>) { Pairwise(ids, ApartLive(pairs)) }

  /** Whatever was listed has a counterpart: same ends, at least its priority. */
  ghost predicate Dominates(was: Pairs, wasList: seq<nat>, now: Pairs, nowList: seq<nat>)
  {
    forall id :: id in wasList && id in was ==> Covered(now, nowList, Ends(was[id]), was[id].priority)
  }

  ghost predicate Covered(pairs: Pairs, ids: seq<nat>, ends: (Endpoint, Endpoint, Text), priority: u64)
  {
    exists id :: id in ids && id in pairs && Ends(pairs[id]) == ends && pairs[id].priority >= priority
  }

  lemma CoveredFurther(was: Pairs, wasList: seq<nat>, now: Pairs, nowList: seq<nat>,
                       ends: (Endpoint, Endpoint, Text), priority: u64)
    requires Dominates(was, wasList, now, nowList) && Covered(was, wasList, ends, priority)
    ensures Covered(now, nowList, ends, priority)
  {
    hide Ends;
    var id :| id in wasList && id in was && Ends(was[id]) == ends && was[id].priority >= priority;
    assert Covered(now, nowList, Ends(was[id]), was[id].priority);
  }

  lemma DominatesTransitive(p1: Pairs, l1: seq<nat>, p2: Pairs, l2: seq<nat>, p3: Pairs, l3: seq<nat>)
    requires Dominates(p1, l1, p2, l2) && Dominates(p2, l2, p3, l3)
    ensures Dominates(p1, l1, p3, l3)
  {
    hide Ends, Covered;
    forall id | id in l1 && id in p1 ensures Covered(p3, l3, Ends(p1[id]), p1[id].priority) {
      CoveredFurther(p2, l2, p3, l3, Ends(p1[id]), p1[id].priority);
    }
  }

  lemma DominatesMembers(pairs: Pairs, was: seq<nat>, now: seq<nat>)
    requires forall id :: id in was ==> id in now
    ensures Dominates(pairs, was, pairs, now)
  {
    hide Ends;
    forall id | id in was && id in pairs ensures Covered(pairs, now, Ends(pairs[id]), pairs[id].priority) {
    }
  }

  /** The checklist with entry `k` dropped, when there is one to drop. */
  function Without<T>(s: seq<T>, k: nat): seq<T> { if k < |s| then s[..k] + s[k + 1..] else s }

  /** A new pair takes the place of the redundant one at `k`, if any. */
  lemma ReplaceDominates(pairs: Pairs, ids: seq<nat>, k: nat, id: nat, p: Pair)
    requires InStore(pairs, ids) && id !in pairs
    requires k < |ids| ==> Ends(pairs[ids[k]]) == Ends(p) && pairs[ids[k]].priority <= p.priority
    ensures Dominates(pairs, ids, pairs[id := p], Without(ids, k) + [id])
  {
    hide Ends;
    var now, list := pairs[id := p], Without(ids, k) + [id];
    forall x | x in ids && x in pairs ensures Covered(now, list, Ends(pairs[x]), pairs[x].priority) {
      if k < |ids| && x == ids[k] {
        assert id in list;
      } else {
        assert x in list && now[x] == pairs[x];
      }
    }
  }

  lemma WithoutPairwise<T(!new)>(s: seq<T>, k: nat, r: (T, T) -> bool)
    requires Pairwise(s, r)
    ensures Pairwise(Without(s, k), r)
  {
    var t := Without(s, k);
    forall i, j | 0 <= i < j < |t| ensures r(t[i], t[j]) {
      var i' := if i < k || k >= |s| then i else i + 1;
      var j' := if j < k || k >= |s| then j else j + 1;
      assert t[i] == s[i'] && t[j] == s[j'];
    }
  }

  /** In a pruned list no other live pair has the ends of the pair at `k`. */
  lemma OnlyOne(pairs: Pairs, ids: seq<nat>, k: nat, x: nat)
    requires InStore(pairs, ids) && Pruned(pairs, ids) && k < |ids| && Live(pairs[ids[k]])
    requires x in Without(ids, k) && Live(pairs[x])
    ensures Ends(pairs[x]) != Ends(pairs[ids[k]])
  {
    hide Ends, Live;
    var apart := ApartLive(pairs);
    var i :| 0 <= i < |ids| - 1 && Without(ids, k)[i] == x;
    if i < k {
      assert apart(ids[i], ids[k]);
    } else {
      assert apart(ids[k], ids[i + 1]);
    }
  }

  lemma AppendPruned(pairs: Pairs, ids: seq<nat>, id: nat, p: Pair)
    requires InStore(pairs, ids) && id !in pairs && Pruned(pairs, ids)
    requires forall x :: x in ids && Live(pairs[x]) ==> Ends(pairs[x]) != Ends(p)
    ensures Pruned(pairs[id := p], ids + [id])
  {
    hide Ends, Live;
    var now, list := pairs[id := p], ids + [id];
    forall i, j | 0 <= i < j < |list| ensures ApartLive(now)(list[i], list[j]) {
      assert list[i] == ids[i] && ids[i] in ids;
      if j < |ids| {
        assert list[j] == ids[j] && ids[j] in ids;
        assert ApartLive(pairs)(ids[i], ids[j]);
      }
    }
  }

  lemma ReplacePruned(pairs: Pairs, ids: seq<nat>, k: nat, id: nat, p: Pair)
    requires InStore(pairs, ids) && id !in pairs && Pruned(pairs, ids)
    requires k < |ids| ==> Live(pairs[ids[k]]) && Ends(pairs[ids[k]]) == Ends(p)
    requires k >= |ids| ==> forall x :: x in ids && Live(pairs[x]) ==> Ends(pairs[x]) != Ends(p)
    ensures Pruned(pairs[id := p], Without(ids, k) + [id])
  {
    hide Ends, Live, Pairwise, ApartLive;
    WithoutPairwise(ids, k, ApartLive(pairs));
    forall x | x in Without(ids, k) && Live(pairs[x]) ensures Ends(pairs[x]) != Ends(p) {
      if k < |ids| { OnlyOne(pairs, ids, k, x); }
    }
    AppendPruned(pairs, Without(ids, k), id, p);
  }

  lemma PermutePruned(pairs: Pairs, ids: seq<nat>, sorted: seq<nat>)
    requires multiset(ids) == multiset(sorted) && Pruned(pairs, ids)
    ensures Pruned(pairs, sorted)
  {
    PermutationPairwise(ids, sorted, ApartLive(pairs));
  }

  /** Rule 1 for a new pair: it tops the column of its foundation. */
  ghost predicate Topmost(pairs: Pairs, ids: seq<nat>, p: Pair)
  {
    forall id :: id in ids && id in pairs && Foundation(pairs[id]) == Foundation(p) ==>
      Component(pairs[id]) > Component(p) || (Component(pairs[id]) == Component(p) && pairs[id].priority <= p.priority)
  }

  /** Rule 2: its foundation has already worked. */
  ghost predicate Proven(pairs: Pairs, ids: seq<nat>, p: Pair)
  {
    exists id :: id in ids && id in pairs && Foundation(pairs[id]) == Foundation(p) && pairs[id].state.Succeeded?
  }

  ghost function NewState(trickle: bool, pairs: Pairs, ids: seq<nat>, p: Pair): PairState
  {
    if trickle && (Topmost(pairs, ids, p) || Proven(pairs, ids, p)) then Waiting else Frozen
  }

  /** The pair `Replace` forms. */
  ghost function NewPair(trickle: bool, pairs: Pairs, ids: seq<nat>, local: Candidate, remote: Candidate, priority: u64): Pair
  {
    var p := Pair(local, remote, priority, Frozen);
    p.(state := NewState(trickle, pairs, ids, p))
  }

  lemma MembersOfWithout<T(!new)>(s: seq<T>, k: nat)
    ensures forall x :: x in Without(s, k) ==> x in s
  {
  }

  /** One iteration of pairing keeps the core, loses no pair without a better one, and prunes. */
  lemma ReplaceKeeps(s: State, k: nat, p: Pair)
    requires Core(s) && k <= |s.checkList|
    requires p.priority == Formula(p, s.controlling) && RemoteKnown(s.remotes, p)
    requires k < |s.checkList| ==>
               && s.checkList[k] in s.pairs && Live(s.pairs[s.checkList[k]])
               && Ends(s.pairs[s.checkList[k]]) == Ends(p) && s.pairs[s.checkList[k]].priority <= p.priority
    requires k == |s.checkList| ==> forall x :: x in s.checkList && Live(s.pairs[x]) ==> Ends(s.pairs[x]) != Ends(p)
    ensures var ids := Without(s.checkList, k) + [s.nextId];
            var now := s.pairs[s.nextId := p];
            && Core(s.(pairs := now, nextId := s.nextId + 1, checkList := ids))
            && Grown(s.pairs, s.checkList, now, ids)
            && Covered(now, ids, Ends(p), p.priority)
  {
    hide Core, Dominates, Pruned, Ends, Live, Formula, RemoteKnown, Extends;
    CoreRefs(s);
    var now := s.pairs[s.nextId := p];
    var kept := Without(s.checkList, k);
    MembersOfWithout(s.checkList, k);
    var s1 := s.(checkList := kept);
    SublistKeepsCore(s, kept);
    StoreKeepsCore(s1, p);
    JoinKeepsCore(s1.(pairs := now, nextId := s.nextId + 1), s.nextId);
    ReplaceDominates(s.pairs, s.checkList, k, s.nextId, p);
    if Pruned(s.pairs, s.checkList) { ReplacePruned(s.pairs, s.checkList, k, s.nextId, p); }
    assert s.nextId in kept + [s.nextId] && now[s.nextId] == p;
  }

  lemma CoreRefs(s: State)
    requires Core(s)
    ensures InStore(s.pairs, s.checkList) && s.nextId !in s.pairs
  {
  }

  /** How pairing changes the store and the checklist: nothing is altered, nothing is lost without
      a better counterpart, and pruning is kept. */
  ghost predicate Grown(was: Pairs, wasList: seq<nat>, now: Pairs, nowList: seq<nat>)
  {
    && Extends(was, now)
    && Dominates(was, wasList, now, nowList)
    && (Pruned(was, wasList) ==> Pruned(now, nowList))
    && NewOnly(was, wasList, nowList)
  }

  /** What is listed now was listed before or did not exist. */
  ghost predicate NewOnly(was: Pairs, wasList: seq<nat>, nowList: seq<nat>)
  {
    forall id :: id in nowList ==> id in wasList || id !in was
  }

  lemma GrownSelf(pairs: Pairs, ids: seq<nat>)
    ensures Grown(pairs, ids, pairs, ids)
  {
    hide Dominates, Pruned;
    DominatesMembers(pairs, ids, ids);
  }

  lemma GrownTransitive(p1: Pairs, l1: seq<nat>, p2: Pairs, l2: seq<nat>, p3: Pairs, l3: seq<nat>)
    requires Grown(p1, l1, p2, l2) && Grown(p2, l2, p3, l3)
    ensures Grown(p1, l1, p3, l3)
  {
    hide Dominates, Pruned;
    DominatesTransitive(p1, l1, p2, l2, p3, l3);
  }

  lemma GrownSorted(pairs: Pairs, ids: seq<nat>, sorted: seq<nat>)
    requires multiset(sorted) == multiset(ids)
    ensures Grown(pairs, ids, pairs, sorted)
  {
    hide Dominates, Pruned;
    PermutationMembers(ids, sorted);
    DominatesMembers(pairs, ids, sorted);
    if Pruned(pairs, ids) { PermutePruned(pairs, ids, sorted); }
  }

  /** Two candidates that can pair have a pair listed, of at least their own priority. */
  ghost predicate Paired(pairs: Pairs, ids: seq<nat>, local: Candidate, remote: Candidate, controlling: bool)
  {
    CanPair(local, remote) ==>
      Covered(pairs, ids, (local.endpoint, remote.endpoint, Fold(local.transportType)),
              PairPriority(local.priority, remote.priority, controlling))
  }

  lemma PairedGrown(was: Pairs, wasList: seq<nat>, now: Pairs, nowList: seq<nat>,
                    local: Candidate, remote: Candidate, controlling: bool)
    requires Grown(was, wasList, now, nowList) && Paired(was, wasList, local, remote, controlling)
    ensures Paired(now, nowList, local, remote, controlling)
  {
    hide Dominates, Covered, CanPair, PairPriority;
    if CanPair(local, remote) {
      CoveredFurther(was, wasList, now, nowList, (local.endpoint, remote.endpoint, Fold(local.transportType)),
                     PairPriority(local.priority, remote.priority, controlling));
    }
  }

  lemma KnownWhenPaired(remotes: seq<Candidate>, p: Pair)
    requires p.remote in remotes && CanPair(p.local, p.remote)
    ensures RemoteKnown(remotes, p)
  {
  }

  lemma CoveredBy(pairs: Pairs, ids: seq<nat>, id: nat, priority: u64)
    requires id in ids && id in pairs && pairs[id].priority >= priority
    ensures Covered(pairs, ids, Ends(pairs[id]), priority)
  {
  }

  /** A checklist with the same members, in any order. */
  lemma SortedKeeps(c: Config, s: State, sorted: seq<nat>)
    requires Core(s) && (forall id :: id in sorted <==> id in s.checkList) && SortedBy(sorted, Higher(s.pairs))
    requires c.components < 255
    ensures Inv(c, s.(checkList := sorted))
  {
    hide Core, SortedBy;
    SublistKeepsCore(s, sorted);
  }

  lemma NotPaired(pairs: Pairs, ids: seq<nat>, local: Candidate, remote: Candidate, controlling: bool)
    requires !CanPair(local, remote)
    ensures Paired(pairs, ids, local, remote, controlling)
  {
  }

  lemma GrownStore(was: Pairs, wasList: seq<nat>, now: Pairs, nowList: seq<nat>)
    requires Grown(was, wasList, now, nowList)
    ensures forall id :: id in was ==> id in now && now[id] == was[id]
  {
  }

  // ---- remote candidates ----

  ghost predicate Unknown(remotes: seq<Candidate>, c: Candidate)
  {
    forall r :: r in remotes ==> !(r.endpoint == c.endpoint && SameIgnoringCase(r.transportType, c.transportType))
  }

  /** No listed pair leads to a candidate that is not known yet. */
  lemma NoPairYet(s: State, c: Candidate, id: nat)
    requires Core(s) && Unknown(s.remotes, c) && id in s.checkList && id in s.pairs
    ensures s.pairs[id].remote.endpoint != c.endpoint || Fold(s.pairs[id].local.transportType) != Fold(c.transportType)
  {
    hide Fold;
    assert RemoteKnown(s.remotes, s.pairs[id]);
  }

  lemma MoreRemotes(s: State, more: seq<Candidate>)
    requires Core(s)
    ensures Core(s.(remotes := s.remotes + more))
  {
    hide ValidOk;
    forall id | id in s.checkList && id in s.pairs ensures RemoteKnown(s.remotes + more, s.pairs[id]) {
      assert RemoteKnown(s.remotes, s.pairs[id]);
    }
  }

  // ---- roles ----

  function Reprioritised(pairs: Pairs, ids: seq<nat>, controlling: bool): Pairs
  {
    map id | id in pairs :: if id in ids then pairs[id].(priority := Formula(pairs[id], controlling)) else pairs[id]
  }

  lemma ReprioritisedKeeps(s: State, controlling: bool)
    requires Core(s)
    ensures Core(s.(pairs := Reprioritised(s.pairs, s.checkList, controlling), controlling := controlling))
  {
    hide ValidOk, PairPriority;
    var now := Reprioritised(s.pairs, s.checkList, controlling);
    ValidKept(s.pairs, now, s.validList, s.generation);
    forall id | id in s.checkList && id in now ensures RemoteKnown(s.remotes, now[id]) {
      assert RemoteKnown(s.remotes, s.pairs[id]);
    }
  }

  // ---- the scheduler ----

  /** A check of this foundation is under way. */
  ghost predicate Busy(pairs: Pairs, ids: seq<nat>, foundation: Text)
  {
    exists id :: id in ids && id in pairs && pairs[id].state.InProgress? && Foundation(pairs[id]) == foundation
  }

  ghost predicate SomeWaiting(pairs: Pairs, ids: seq<nat>)
  {
    exists id :: id in ids && id in pairs && pairs[id].state.Waiting?
  }

  /** Which frozen pairs the scheduler lets go. */
  ghost predicate Thaws(pairs: Pairs, ids: seq<nat>, id: nat)
  {
    id in pairs && pairs[id].state.Frozen? && !Busy(pairs, ids, Foundation(pairs[id]))
  }

  /** Exactly the listed pairs in `done` that may thaw have become waiting. */
  ghost predicate Thawed(was: Pairs, ids: seq<nat>, done: seq<nat>, now: Pairs)
  {
    && was.Keys == now.Keys
    && forall id :: id in was ==>
         now[id] == if id in done && Thaws(was, ids, id) then was[id].(state := Waiting) else was[id]
  }

  /** Higher priority first, then the lower component. */
  predicate Better(p: Pair, q: Pair)
  {
    p.priority > q.priority || (p.priority == q.priority && Component(p) < Component(q))
  }

  /** What the scheduler may return when no triggered check is queued. */
  ghost predicate Picked(pairs: Pairs, ids: seq<nat>, task: Option<CheckTask>)
  {
    if task.Some? then
      && !task.value.useCandidate && task.value.pair in ids && task.value.pair in pairs
      && pairs[task.value.pair].state.Waiting?
      && forall id :: id in ids && id in pairs && pairs[id].state.Waiting? ==> !Better(pairs[id], pairs[task.value.pair])
    else !SomeWaiting(pairs, ids)
  }

  /** Nothing can be started: no pair waits and every frozen one is held up by a check under way. */
  ghost predicate Stalled(pairs: Pairs, ids: seq<nat>)
  {
    && !SomeWaiting(pairs, ids)
    && forall id :: id in ids && id in pairs && pairs[id].state.Frozen? ==> Busy(pairs, ids, Foundation(pairs[id]))
  }

  /** The scheduler comes back empty exactly when it is stalled. */
  lemma EmptyMeansStalled(was: Pairs, ids: seq<nat>, now: Pairs)
    requires InStore(was, ids)
    requires if SomeWaiting(was, ids) then now == was else Thawed(was, ids, ids, now)
    ensures !SomeWaiting(now, ids) <==> Stalled(was, ids)
  {
    if !SomeWaiting(was, ids) && !Stalled(was, ids) {
      var id :| id in ids && id in was && was[id].state.Frozen? && !Busy(was, ids, Foundation(was[id]));
      assert Thaws(was, ids, id) && now[id].state.Waiting?;
    }
  }

  lemma PickedNothing(pairs: Pairs, ids: seq<nat>, task: Option<CheckTask>)
    requires Picked(pairs, ids, task)
    ensures task.None? <==> !SomeWaiting(pairs, ids)
  {
  }

  /** No stall without a check under way: then every listed pair is decided. */
  lemma StalledMeansDecided(pairs: Pairs, ids: seq<nat>, id: nat)
    requires Stalled(pairs, ids) && id in ids && id in pairs
    requires forall x :: x in ids && x in pairs ==> !pairs[x].state.InProgress?
    ensures pairs[id].state.Succeeded? || pairs[id].state.Failed?
  {
    assert pairs[id].state.Waiting? ==> SomeWaiting(pairs, ids);
    assert !Busy(pairs, ids, Foundation(pairs[id]));
  }

  lemma SameTransport(local: Candidate, remote: Candidate)
    requires CanPair(local, remote)
    ensures Fold(local.transportType) == Fold(remote.transportType)
  {
  }

  lemma SameFormula(p: Pair, q: Pair, controlling: bool)
    requires p.local == q.local && p.remote == q.remote
    ensures Formula(p, controlling) == Formula(q, controlling)
  {
  }

  lemma LiteKeeps(c: Config, s: State, lite: bool)
    requires Inv(c, s)
    ensures Inv(c, s.(lite := lite))
  {
  }

  lemma ThawedLooksTheSame(was: Pairs, ids: seq<nat>, done: seq<nat>, now: Pairs, id: nat)
    requires Thawed(was, ids, done, now) && id in was
    ensures now.Keys == was.Keys && Foundation(now[id]) == Foundation(was[id])
    ensures Busy(now, ids, Foundation(was[id])) <==> Busy(was, ids, Foundation(was[id]))
  {
    forall x | x in was
      ensures now[x].state.InProgress? <==> was[x].state.InProgress?
      ensures Foundation(now[x]) == Foundation(was[x])
    {
      hide Foundation, Busy;
      assert now[x].local == was[x].local && now[x].remote == was[x].remote;
      SameFoundation(now[x], was[x]);
    }
    hide Foundation;
  }

  lemma SameFoundation(p: Pair, q: Pair)
    requires p.local == q.local && p.remote == q.remote
    ensures Foundation(p) == Foundation(q)
  {
  }

  lemma ThawedStatesOnly(was: Pairs, ids: seq<nat>, now: Pairs)
    requires Thawed(was, ids, ids, now)
    ensures StatesOnly(was, now)
  {
    hide Thaws;
  }

  lemma QueueRefs(c: Config, s: State)
    requires Inv(c, s) && s.queue != []
    ensures s.queue[0].pair in s.pairs
    ensures Inv(c, s.(queue := s.queue[1..]))
  {
    hide ValidOk, RemotesKnown, PrioritiesOk, SortedBy;
    assert s.queue[0] in s.queue;
  }

  lemma CoreValid(s: State)
    requires Core(s)
    ensures ValidOk(s.pairs, s.validList, s.generation)
  {
  }

  // ---- the first pairs to start ----

  function Before(pairs: Pairs): (nat, nat) -> bool
  {
    (a: nat, b: nat) =>
      if a in pairs && b in pairs then
        Component(pairs[a]) < Component(pairs[b])
        || (Component(pairs[a]) == Component(pairs[b]) && pairs[a].priority > pairs[b].priority)
      else a in pairs && b !in pairs
  }

  lemma BeforeIsOrder(pairs: Pairs)
    ensures WeakOrder(Before(pairs))
  {
  }

  /** One pair per foundation, before which no pair of that foundation comes. */
  ghost predicate Tops(pairs: Pairs, ids: seq<nat>, tops: seq<nat>)
  {
    && (forall t :: t in tops ==> t in ids && t in pairs)
    && (forall i, j :: 0 <= i < j < |tops| && tops[i] in pairs && tops[j] in pairs ==>
          Foundation(pairs[tops[i]]) != Foundation(pairs[tops[j]]))
    && (forall id :: id in ids && id in pairs ==> Topped(pairs, tops, id))
  }

  ghost predicate Topped(pairs: Pairs, tops: seq<nat>, id: nat)
    requires id in pairs
  {
    exists t :: t in tops && t in pairs && Foundation(pairs[t]) == Foundation(pairs[id]) && !Before(pairs)(id, t)
  }

  ghost predicate Started(was: Pairs, tops: seq<nat>, now: Pairs)
  {
    && was.Keys == now.Keys
    && forall id :: id in was ==> now[id] == if id in tops then was[id].(state := Waiting) else was[id]
  }

  lemma StartedStatesOnly(was: Pairs, tops: seq<nat>, now: Pairs)
    requires Started(was, tops, now)
    ensures StatesOnly(was, now)
  {
  }

  lemma StartedLooksTheSame(was: Pairs, tops: seq<nat>, now: Pairs, id: nat)
    requires Started(was, tops, now) && id in was
    ensures id in now && Foundation(now[id]) == Foundation(was[id])
  {
    SameFoundation(now[id], was[id]);
  }

  lemma ToppedMore(pairs: Pairs, tops: seq<nat>, last: nat, id: nat)
    requires id in pairs
    requires Topped(pairs, tops, id) || (last == id && !Before(pairs)(id, id))
    ensures Topped(pairs, tops + [last], id)
  {
    hide Foundation, Before;
    if Topped(pairs, tops, id) {
      var t :| t in tops && t in pairs && Foundation(pairs[t]) == Foundation(pairs[id]) && !Before(pairs)(id, t);
      assert t in tops + [last];
    } else {
      assert last in tops + [last];
    }
  }

  lemma NotBeforeItself(pairs: Pairs, id: nat)
    ensures !Before(pairs)(id, id)
  {
  }

  /** The foundations met so far are those of the tops. */
  ghost predicate SeenIs(pairs: Pairs, tops: seq<nat>, seen: set<Text>)
  {
    forall f :: f in seen <==> exists t :: t in tops && t in pairs && Foundation(pairs[t]) == f
  }

  lemma TopsAppend(pairs: Pairs, order: seq<nat>, i: nat, tops: seq<nat>, seen: set<Text>)
    requires i < |order| && order[i] in pairs && Tops(pairs, order[..i], tops)
    requires SeenIs(pairs, tops, seen) && Foundation(pairs[order[i]]) !in seen
    ensures Tops(pairs, order[..i + 1], tops + [order[i]])
    ensures SeenIs(pairs, tops + [order[i]], seen + {Foundation(pairs[order[i]])})
  {
    hide Foundation, Before, Topped;
    assert order[..i + 1] == order[..i] + [order[i]];
    NotBeforeItself(pairs, order[i]);
    forall id | id in order[..i + 1] && id in pairs ensures Topped(pairs, tops + [order[i]], id) {
      ToppedMore(pairs, tops, order[i], id);
    }
  }

  lemma TopsStart(pairs: Pairs)
    ensures Tops(pairs, [], []) && SeenIs(pairs, [], {}) && Started(pairs, [], pairs)
  {
  }

  lemma StartedAppend(was: Pairs, tops: seq<nat>, now: Pairs, id: nat)
    requires Started(was, tops, now) && id in was
    ensures id in now && Started(was, tops + [id], now[id := now[id].(state := Waiting)])
  {
  }

  /** A pair whose foundation has a top comes no earlier than that top. */
  lemma LaterIsTopped(pairs: Pairs, order: seq<nat>, i: nat, tops: seq<nat>, seen: set<Text>)
    requires i < |order| && order[i] in pairs && SortedBy(order, Before(pairs))
    requires forall t :: t in tops ==> t in order[..i]
    requires SeenIs(pairs, tops, seen) && Foundation(pairs[order[i]]) in seen
    ensures Topped(pairs, tops, order[i])
  {
    hide Foundation, Before;
    var t :| t in tops && t in pairs && Foundation(pairs[t]) == Foundation(pairs[order[i]]);
    assert t in order[..i];
    var k :| 0 <= k < i && order[k] == t;
    assert !Before(pairs)(order[i], order[k]);
  }

  lemma TopsSkip(pairs: Pairs, order: seq<nat>, i: nat, tops: seq<nat>, seen: set<Text>)
    requires i < |order| && order[i] in pairs && Tops(pairs, order[..i], tops)
    requires SortedBy(order, Before(pairs))
    requires SeenIs(pairs, tops, seen) && Foundation(pairs[order[i]]) in seen
    ensures Tops(pairs, order[..i + 1], tops)
  {
    hide Foundation, Before, Topped, SeenIs, SortedBy;
    assert order[..i + 1] == order[..i] + [order[i]];
    LaterIsTopped(pairs, order, i, tops, seen);
  }

  lemma TopsMembers(pairs: Pairs, order: seq<nat>, ids: seq<nat>, tops: seq<nat>)
    requires Tops(pairs, order, tops) && forall id :: id in order <==> id in ids
    ensures Tops(pairs, ids, tops)
  {
    hide Topped, Foundation;
  }
}
