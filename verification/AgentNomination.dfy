/** Nominating valid pairs: what may be nominated, what that erases, and what the controlling
    agent asks for by default. */
module AgentNomination {
  import opened Wire
  import opened Order
  import opened Lists
  import opened Candidates
  import opened AgentState

  function ComponentOf(pairs: Pairs, id: nat): byte { if id in pairs then Component(pairs[id]) else 0 }

  predicate NominatedFor(pairs: Pairs, v: ValidPair, c: nat) { v.nominated && ComponentOf(pairs, v.pair) == c }

  ghost predicate HasNominated(pairs: Pairs, validList: seq<ValidPair>, c: nat)
  {
    exists v :: v in validList && NominatedFor(pairs, v, c)
  }

  ghost predicate AllNominated(pairs: Pairs, validList: seq<ValidPair>, n: nat)
  {
    forall c :: 1 <= c <= n ==> HasNominated(pairs, validList, c)
  }

  ghost predicate ExactlyOne(pairs: Pairs, validList: seq<ValidPair>, c: nat)
  {
    exists i :: 0 <= i < |validList| && NominatedFor(pairs, validList[i], c)
                && forall j :: 0 <= j < |validList| && j != i ==> !NominatedFor(pairs, validList[j], c)
  }

  lemma NominatedOnce(pairs: Pairs, validList: seq<ValidPair>, generation: u32, c: nat)
    requires ValidOk(pairs, validList, generation) && HasNominated(pairs, validList, c)
    ensures ExactlyOne(pairs, validList, c)
  {
    hide Ends;
    var v :| v in validList && NominatedFor(pairs, v, c);
    var i :| 0 <= i < |validList| && validList[i] == v;
    forall j | 0 <= j < |validList| && j != i ensures !NominatedFor(pairs, validList[j], c) {
      assert EntryOk(pairs, validList[i], generation) && EntryOk(pairs, validList[j], generation);
      if i < j {
        assert Apart(pairs)(validList[i], validList[j]);
      } else {
        assert Apart(pairs)(validList[j], validList[i]);
      }
    }
  }

  lemma AllExactlyOne(config: Config, s: State)
    requires Inv(config, s) && AllNominated(s.pairs, s.validList, config.components)
    ensures forall c :: 1 <= c <= config.components ==> ExactlyOne(s.pairs, s.validList, c)
  {
    hide ValidOk, HasNominated, ExactlyOne;
    CoreValid(s);
    forall c: nat | 1 <= c <= config.components ensures ExactlyOne(s.pairs, s.validList, c) {
      NominatedOnce(s.pairs, s.validList, s.generation, c);
    }
  }

  // ---- nominating one entry ----

  function Mark(validList: seq<ValidPair>, i: nat): seq<ValidPair>
    requires i < |validList|
  {
    validList[i := validList[i].(nominated := true)]
  }

  /** What stays when `id` is nominated: itself, other components, and its own generation. */
  function Survives(pairs: Pairs, id: nat, generation: u32): ValidPair -> bool
  {
    (v: ValidPair) => v.pair == id || ComponentOf(pairs, v.pair) != ComponentOf(pairs, id) || v.generation == generation
  }

  function OtherPairs(pairs: Pairs, id: nat): nat -> bool
  {
    (x: nat) => ComponentOf(pairs, x) != ComponentOf(pairs, id)
  }

  function OtherTasks(pairs: Pairs, id: nat): CheckTask -> bool
  {
    (t: CheckTask) => ComponentOf(pairs, t.pair) != ComponentOf(pairs, id)
  }

  /** The entry may be nominated: it is not yet, and nothing of this generation is for its component. */
  ghost predicate Nominable(s: State, i: nat)
    requires i < |s.validList|
  {
    && !s.phase.Closed? && !s.phase.Connected? && !s.validList[i].nominated
    && forall v :: v in s.validList && NominatedFor(s.pairs, v, ComponentOf(s.pairs, s.validList[i].pair)) ==>
         v.generation != s.generation
  }

  lemma NotOver(s: State, i: nat)
    requires i < |s.validList| && Nominable(s, i)
    ensures !s.phase.Connected? && !s.phase.Closed?
  {
  }

  ghost function AfterNomination(pairs: Pairs, validList: seq<ValidPair>, generation: u32, i: nat): seq<ValidPair>
    requires i < |validList|
  {
    Filter(Mark(validList, i), Survives(pairs, validList[i].pair, generation))
  }

  /** What `set_nominated` makes of an entry that may be nominated. */
  ghost function Nominated(config: Config, s: State, i: nat): State
    requires i < |s.validList|
  {
    var id := s.validList[i].pair;
    var validList := AfterNomination(s.pairs, s.validList, s.generation, i);
    s.(validList := validList,
       checkList := Filter(s.checkList, OtherPairs(s.pairs, id)),
       queue := Filter(s.queue, OtherTasks(s.pairs, id)),
       phase := if AllNominated(s.pairs, validList, config.components) then Connected else s.phase)
  }

  /** What it does whether or not the entry may be. */
  ghost predicate NominationTried(config: Config, s: State, entry: nat, t: State)
  {
    exists i :: 0 <= i < |s.validList| && s.validList[i].pair == entry
                && t == if Nominable(s, i) then Nominated(config, s, i) else s
  }

  lemma MarkedApart(s: State, i: nat, k: nat, m: nat)
    requires ValidOk(s.pairs, s.validList, s.generation) && i < |s.validList| && Nominable(s, i)
    requires k < m < |s.validList|
    requires var keep := Survives(s.pairs, s.validList[i].pair, s.generation); keep(s.validList[k]) && keep(s.validList[m])
    ensures Apart(s.pairs)(Mark(s.validList, i)[k], Mark(s.validList, i)[m])
  {
    hide Ends;
    var v, w := s.validList[k], s.validList[m];
    assert Apart(s.pairs)(v, w);
    assert EntryOk(s.pairs, v, s.generation) && EntryOk(s.pairs, w, s.generation);
  }

  /** Nomination keeps the valid list in order although it flips a flag: the one nominated entry its
      component may have is of an older generation and is erased. */
  lemma NominationKeeps(s: State, i: nat)
    requires ValidOk(s.pairs, s.validList, s.generation) && i < |s.validList| && Nominable(s, i)
    ensures ValidOk(s.pairs, AfterNomination(s.pairs, s.validList, s.generation, i), s.generation)
    ensures HasNominated(s.pairs, AfterNomination(s.pairs, s.validList, s.generation, i),
                         ComponentOf(s.pairs, s.validList[i].pair))
  {
    hide Apart, EntryOk;
    var marked := Mark(s.validList, i);
    var keep := Survives(s.pairs, s.validList[i].pair, s.generation);
    var after := Filter(marked, keep);
    forall v | v in after ensures EntryOk(s.pairs, v, s.generation) {
      var k :| 0 <= k < |marked| && marked[k] == v;
      MarkKeepsEntry(s.pairs, s.validList, s.generation, i, k);
    }
    forall a, b | 0 <= a < b < |after| ensures Apart(s.pairs)(after[a], after[b]) {
      var k, m := FilterOrder(marked, keep, a, b);
      assert after[a] in after && after[b] in after;
      MarkedApart(s, i, k, m);
    }
    assert marked[i] in marked && keep(marked[i]);
    assert NominatedFor(s.pairs, marked[i], ComponentOf(s.pairs, s.validList[i].pair));
  }

  lemma MarkKeepsEntry(pairs: Pairs, validList: seq<ValidPair>, generation: u32, i: nat, k: nat)
    requires ValidOk(pairs, validList, generation) && i < |validList| && k < |validList|
    ensures EntryOk(pairs, Mark(validList, i)[k], generation)
  {
    assert EntryOk(pairs, validList[k], generation);
  }

  /** The other lists shrink and nothing else about them matters. */
  lemma ShrinkKeeps(c: Config, s: State, validList: seq<ValidPair>, ids: nat -> bool, tasks: CheckTask -> bool, phase: Phase)
    requires Inv(c, s) && ValidOk(s.pairs, validList, s.generation)
    ensures Inv(c, s.(validList := validList, checkList := Filter(s.checkList, ids), queue := Filter(s.queue, tasks),
                      phase := phase))
  {
    hide ValidOk, RemotesKnown, PrioritiesOk;
    var kept := Filter(s.checkList, ids);
    SublistKeepsCore(s, kept);
    if c.trickle { FilterSorted(s.checkList, ids, Higher(s.pairs)); }
  }

  // ---- what the controlling agent asks for ----

  ghost predicate HasValid(pairs: Pairs, validList: seq<ValidPair>, c: nat)
  {
    exists v :: v in validList && ComponentOf(pairs, v.pair) == c
  }

  /** The components up to `n` that have a valid pair and no nominated one, in order. */
  ghost function Wanted(pairs: Pairs, validList: seq<ValidPair>, n: nat): seq<nat>
  {
    if n == 0 then []
    else
      Wanted(pairs, validList, n - 1)
      + if HasValid(pairs, validList, n) && !HasNominated(pairs, validList, n) then [n] else []
  }

  /** A use-candidate check on the source of a highest-priority valid pair of the component. */
  ghost predicate Asks(pairs: Pairs, validList: seq<ValidPair>, c: nat, t: CheckTask)
  {
    && t.useCandidate
    && exists v :: v in validList && ComponentOf(pairs, v.pair) == c && v.source == Some(t.pair)
         && forall w :: w in validList && ComponentOf(pairs, w.pair) == c ==> PriorityOf(pairs, w.pair) <= PriorityOf(pairs, v.pair)
  }

  ghost predicate AsksFor(pairs: Pairs, validList: seq<ValidPair>, components: seq<nat>, tasks: seq<CheckTask>)
  {
    |tasks| == |components| && forall i :: 0 <= i < |tasks| ==> Asks(pairs, validList, components[i], tasks[i])
  }

  /** Exactly the pairs those checks are for have become waiting. */
  ghost predicate Woken(was: Pairs, tasks: seq<CheckTask>, now: Pairs)
  {
    && was.Keys == now.Keys
    && forall id :: id in was ==>
         now[id] == if (exists t :: t in tasks && t.pair == id) then was[id].(state := Waiting) else was[id]
  }

  /** In a list sorted by priority the first entry of a component leads it. */
  lemma FirstLeads(pairs: Pairs, validList: seq<ValidPair>, c: nat, i: nat, w: ValidPair)
    requires SortedBy(validList, HigherValid(pairs)) && i < |validList|
    requires forall j :: 0 <= j < i ==> ComponentOf(pairs, validList[j].pair) != c
    requires w in validList && ComponentOf(pairs, w.pair) == c
    ensures PriorityOf(pairs, w.pair) <= PriorityOf(pairs, validList[i].pair)
  {
    hide PriorityOf, ComponentOf;
    var k :| 0 <= k < |validList| && validList[k] == w;
    if i < k { assert !HigherValid(pairs)(validList[k], validList[i]); }
  }

  lemma FirstAsks(pairs: Pairs, validList: seq<ValidPair>, generation: u32, c: nat, i: nat)
    requires ValidOk(pairs, validList, generation) && SortedBy(validList, HigherValid(pairs)) && i < |validList|
    requires ComponentOf(pairs, validList[i].pair) == c && !HasNominated(pairs, validList, c)
    requires forall j :: 0 <= j < i ==> ComponentOf(pairs, validList[j].pair) != c
    ensures validList[i].source.Some? && validList[i].source.value in pairs
    ensures Asks(pairs, validList, c, CheckTask(validList[i].source.value, true))
  {
    hide PriorityOf, ComponentOf, HigherValid;
    var v := validList[i];
    assert v in validList;
    assert EntryOk(pairs, v, generation);
    assert !NominatedFor(pairs, v, c);
    forall w | w in validList && ComponentOf(pairs, w.pair) == c
      ensures PriorityOf(pairs, w.pair) <= PriorityOf(pairs, v.pair)
    {
      FirstLeads(pairs, validList, c, i, w);
    }
  }

  ghost predicate DefaultNominated(config: Config, s: State, t: State)
  {
    if s.phase.Closed? || s.phase.Connected? || !s.controlling then t == s
    else
      && |s.queue| <= |t.queue| && s.queue == t.queue[..|s.queue|]
      && t == s.(pairs := t.pairs, queue := t.queue, validList := t.validList)
      && multiset(t.validList) == multiset(s.validList) && SortedBy(t.validList, HigherValid(s.pairs))
      && AsksFor(s.pairs, t.validList, Wanted(s.pairs, t.validList, config.components), t.queue[|s.queue|..])
      && Woken(s.pairs, t.queue[|s.queue|..], t.pairs)
  }

  lemma SortValidKeeps(c: Config, s: State, sorted: seq<ValidPair>)
    requires Inv(c, s) && multiset(sorted) == multiset(s.validList)
    ensures Inv(c, s.(validList := sorted))
  {
    hide ValidOk, SortedBy, RemotesKnown, PrioritiesOk;
    PermuteValid(s.pairs, s.validList, sorted, s.generation);
  }

  lemma AsksForNone(pairs: Pairs, validList: seq<ValidPair>)
    ensures Woken(pairs, [], pairs) && AsksFor(pairs, validList, Wanted(pairs, validList, 0), [])
  {
  }

  lemma WokenStatesOnly(was: Pairs, tasks: seq<CheckTask>, now: Pairs)
    requires Woken(was, tasks, now)
    ensures StatesOnly(was, now)
  {
  }

  lemma SameComponents(was: Pairs, tasks: seq<CheckTask>, now: Pairs, validList: seq<ValidPair>, c: nat)
    requires Woken(was, tasks, now)
    ensures HasNominated(now, validList, c) <==> HasNominated(was, validList, c)
    ensures HasValid(now, validList, c) <==> HasValid(was, validList, c)
    ensures forall v :: v in validList ==> ComponentOf(now, v.pair) == ComponentOf(was, v.pair)
  {
    WokenStatesOnly(was, tasks, now);
    hide Woken;
    forall id ensures ComponentOf(now, id) == ComponentOf(was, id) {
    }
    hide ComponentOf;
  }

  /** Queueing one more check. */
  lemma AskKeeps(c: Config, s: State, source: nat, was: Pairs, added: seq<CheckTask>)
    requires Inv(c, s) && source in was && Woken(was, added, s.pairs)
    ensures source in s.pairs
    ensures var now := s.pairs[source := s.pairs[source].(state := Waiting)];
            && Woken(was, added + [CheckTask(source, true)], now)
            && Inv(c, s.(pairs := now, queue := s.queue + [CheckTask(source, true)]))
  {
    hide ValidOk, SortedBy, RemotesKnown, PrioritiesOk;
    var now := s.pairs[source := s.pairs[source].(state := Waiting)];
    StatesOnlyKeeps(c, s, now);
    WokenOne(was, added, s.pairs, source);
  }

  lemma WokenOne(was: Pairs, added: seq<CheckTask>, now: Pairs, source: nat)
    requires Woken(was, added, now) && source in was
    ensures source in now && Woken(was, added + [CheckTask(source, true)], now[source := now[source].(state := Waiting)])
  {
    var more := added + [CheckTask(source, true)];
    var next := now[source := now[source].(state := Waiting)];
    forall id | id in was
      ensures next[id] == if (exists t :: t in more && t.pair == id) then was[id].(state := Waiting) else was[id]
    {
      if id == source {
        assert more[|added|] in more && more[|added|].pair == id;
      } else if exists t :: t in added && t.pair == id {
        var t :| t in added && t.pair == id;
        assert t in more;
      }
    }
  }

  // ---- completed checks ----

  /** The frozen pairs of a foundation that has worked are waiting now. */
  ghost predicate Released(was: Pairs, ids: seq<nat>, foundation: Text, now: Pairs)
  {
    && was.Keys == now.Keys
    && forall id :: id in was ==>
         now[id] == if id in ids && was[id].state.Frozen? && Foundation(was[id]) == foundation
                    then was[id].(state := Waiting) else was[id]
  }

  function NotFrom(id: nat): ValidPair -> bool { (v: ValidPair) => v.source != Some(id) }

  /** What `check_complete` does to the state. */
  ghost predicate Completed(config: Config, s: State, id: nat, t: State)
  {
    if id in s.pairs && s.pairs[id].state.Succeeded? then
      exists mid :: Released(s.pairs, s.checkList, Foundation(s.pairs[id]), mid)
                    && DefaultNominated(config, s.(pairs := mid), t)
    else if id in s.pairs && s.pairs[id].state.Failed? then t == s.(validList := Filter(s.validList, NotFrom(id)))
    else t == s
  }

  lemma ReleasedStatesOnly(was: Pairs, ids: seq<nat>, foundation: Text, now: Pairs)
    requires Released(was, ids, foundation, now)
    ensures StatesOnly(was, now)
  {
    hide Foundation;
  }

  lemma ReleasedOne(was: Pairs, ids: seq<nat>, foundation: Text, now: Pairs, id: nat)
    requires Released(was, ids, foundation, now) && id in was
    ensures id in now && Foundation(now[id]) == Foundation(was[id])
    ensures var next := if now[id].state.Frozen? && Foundation(now[id]) == foundation
                        then now[id := now[id].(state := Waiting)] else now;
            Released(was, ids + [id], foundation, next)
  {
    assert Foundation(now[id]) == Foundation(was[id]) by { SameFoundation(now[id], was[id]); }
    hide Foundation;
  }

  lemma DropSourceKeeps(c: Config, s: State, id: nat)
    requires Inv(c, s)
    ensures Inv(c, s.(validList := Filter(s.validList, NotFrom(id))))
  {
    hide ValidOk, SortedBy, RemotesKnown, PrioritiesOk, NotFrom;
    FilterValid(s.pairs, s.validList, s.generation, NotFrom(id));
  }

  /** Fields the invariant does not look at. */
  lemma OtherFields(c: Config, s: State, t: State)
    requires Inv(c, s)
    requires t == s.(locals := t.locals, tie := t.tie, phase := t.phase, lite := t.lite, handling := t.handling)
    ensures Inv(c, t)
  {
  }

  lemma CheckRefs(c: Config, s: State, i: nat)
    requires Inv(c, s) && i < |s.checks|
    ensures s.checks[i].task.pair in s.pairs
    ensures Inv(c, s.(checks := Without(s.checks, i)))
  {
    assert s.checks[i] in s.checks;
    MembersOfWithout(s.checks, i);
  }

  // ---- valid pairs ----

  ghost predicate HasEntry(pairs: Pairs, validList: seq<ValidPair>, ends: (Endpoint, Endpoint, Text))
  {
    exists v :: v in validList && v.pair in pairs && Ends(pairs[v.pair]) == ends
  }

  ghost predicate NoEntry(pairs: Pairs, validList: seq<ValidPair>, ends: (Endpoint, Endpoint, Text))
  {
    forall v :: v in validList && v.pair in pairs ==> Ends(pairs[v.pair]) != ends
  }

  /** A pair with new ends may join the valid list. */
  lemma EnterKeeps(c: Config, s: State, id: nat, source: nat)
    requires Inv(c, s) && id in s.pairs && source in s.pairs && NoEntry(s.pairs, s.validList, Ends(s.pairs[id]))
    ensures Inv(c, s.(validList := s.validList + [ValidPair(id, Some(source), false, s.generation)]))
  {
    hide ValidOk, SortedBy, RemotesKnown, PrioritiesOk, NoEntry;
    EnterValid(s.pairs, s.validList, s.generation, id, source);
  }

  lemma EnterValid(pairs: Pairs, validList: seq<ValidPair>, generation: u32, id: nat, source: nat)
    requires ValidOk(pairs, validList, generation) && id in pairs && source in pairs
    requires NoEntry(pairs, validList, Ends(pairs[id]))
    ensures ValidOk(pairs, validList + [ValidPair(id, Some(source), false, generation)], generation)
  {
    hide Ends;
    var v := ValidPair(id, Some(source), false, generation);
    var more := validList + [v];
    forall i, j | 0 <= i < j < |more| ensures Apart(pairs)(more[i], more[j]) {
      assert more[i] == validList[i] && validList[i] in validList;
      if j < |validList| { assert Apart(pairs)(validList[i], validList[j]); }
    }
  }

  lemma NothingReleased(pairs: Pairs, foundation: Text)
    ensures Released(pairs, [], foundation, pairs)
  {
  }

  lemma StoreKeeps(c: Config, s: State, p: Pair)
    requires Inv(c, s)
    ensures Inv(c, s.(pairs := s.pairs[s.nextId := p], nextId := s.nextId + 1))
  {
    StoreKeepsCore(s, p);
    if c.trickle { ExtendsSorted(s.pairs, s.pairs[s.nextId := p], s.checkList); }
  }

  // ---- phases ----

  ghost predicate Connects(config: Config, s: State)
  {
    forall c :: 1 <= c <= config.components ==> ExactlyOne(s.pairs, s.validList, c)
  }

  /** The only way a step other than connecting, closing or restarting may change the phase. */
  ghost predicate PhaseStep(config: Config, s: State, t: State)
  {
    t.phase == s.phase || (t.phase.Connected? && !s.phase.Closed? && Connects(config, t))
  }

  lemma SameNominated(was: Pairs, now: Pairs, v: ValidPair, c: nat)
    requires StatesOnly(was, now)
    ensures NominatedFor(now, v, c) <==> NominatedFor(was, v, c)
    ensures v.pair in was ==> v.pair in now && Ends(now[v.pair]) == Ends(was[v.pair])
  {
  }

  lemma StatesOnlyConnects(config: Config, s: State, t: State)
    requires StatesOnly(s.pairs, t.pairs) && t.validList == s.validList && Connects(config, s)
    ensures Connects(config, t)
  {
    forall c: nat | 1 <= c <= config.components ensures ExactlyOne(t.pairs, s.validList, c) {
      assert ExactlyOne(s.pairs, s.validList, c);
      forall v: ValidPair ensures NominatedFor(t.pairs, v, c) <==> NominatedFor(s.pairs, v, c) {
        SameNominated(s.pairs, t.pairs, v, c);
      }
      hide NominatedFor;
    }
  }

  /** A state change followed by a permutation of the valid list. */
  lemma StillThere(was: Pairs, now: Pairs, before: seq<ValidPair>, after: seq<ValidPair>,
                   ends: (Endpoint, Endpoint, Text), c: nat)
    requires StatesOnly(was, now) && multiset(after) == multiset(before)
    ensures HasEntry(was, before, ends) ==> HasEntry(now, after, ends)
    ensures HasNominated(was, before, c) ==> HasNominated(now, after, c)
  {
    PermutationMembers(before, after);
    if HasEntry(was, before, ends) {
      var v :| v in before && v.pair in was && Ends(was[v.pair]) == ends;
      SameNominated(was, now, v, c);
    }
    if HasNominated(was, before, c) {
      var v :| v in before && NominatedFor(was, v, c);
      SameNominated(was, now, v, c);
    }
  }

  lemma StatesOnlyTransitive(a: Pairs, b: Pairs, c: Pairs)
    requires StatesOnly(a, b) && StatesOnly(b, c)
    ensures StatesOnly(a, c)
  {
  }

  /** Completing a successful check alters pair states, order and queue, never who is listed as
      valid or nominated, and once connected not even the order. */
  lemma CompletedSuccess(config: Config, s: State, id: nat, t: State)
    requires Completed(config, s, id, t) && id in s.pairs && s.pairs[id].state.Succeeded?
    ensures StatesOnly(s.pairs, t.pairs) && multiset(t.validList) == multiset(s.validList)
    ensures t == s.(pairs := t.pairs, queue := t.queue, validList := t.validList)
    ensures s.phase.Connected? ==> t.validList == s.validList
  {
    hide Foundation, Released, AsksFor, Wanted, Woken, SortedBy;
    var mid :| Released(s.pairs, s.checkList, Foundation(s.pairs[id]), mid)
               && DefaultNominated(config, s.(pairs := mid), t);
    ReleasedStatesOnly(s.pairs, s.checkList, Foundation(s.pairs[id]), mid);
    if !(s.phase.Closed? || s.phase.Connected? || !s.controlling) {
      WokenStatesOnly(mid, t.queue[|s.queue|..], t.pairs);
    }
    hide StatesOnly;
    StatesOnlySelf(mid);
    StatesOnlyTransitive(s.pairs, mid, t.pairs);
  }

  lemma StatesOnlySelf(pairs: Pairs)
    ensures StatesOnly(pairs, pairs)
  {
  }

  lemma NominationKeepsEntry(pairs: Pairs, validList: seq<ValidPair>, generation: u32, i: nat)
    requires i < |validList| && validList[i].pair in pairs
    ensures HasEntry(pairs, AfterNomination(pairs, validList, generation, i), Ends(pairs[validList[i].pair]))
  {
    hide Ends;
    var marked := Mark(validList, i);
    assert marked[i] in marked && Survives(pairs, validList[i].pair, generation)(marked[i]);
  }

  /** Whether or not the call changes anything, a live agent asked to nominate an entry ends up with
      a nominated entry for its component. */
  lemma NominatedAnyway(s: State, i: nat)
    requires ValidOk(s.pairs, s.validList, s.generation) && i < |s.validList|
    requires !Nominable(s, i) && !s.phase.Closed? && !s.phase.Connected?
    ensures HasNominated(s.pairs, s.validList, ComponentOf(s.pairs, s.validList[i].pair))
  {
    hide ComponentOf;
    if s.validList[i].nominated {
      assert s.validList[i] in s.validList;
      assert NominatedFor(s.pairs, s.validList[i], ComponentOf(s.pairs, s.validList[i].pair));
    }
  }

  lemma NoEntryYet(was: Pairs, now: Pairs, validList: seq<ValidPair>, v: nat)
    requires StatesOnly(was, now) && v in was && NoEntry(was, validList, Ends(was[v]))
    ensures v in now && NoEntry(now, validList, Ends(now[v]))
  {
    forall id | id in was ensures Ends(now[id]) == Ends(was[id]) {
    }
    hide Ends;
  }

  lemma EntryListed(s: State, entry: nat)
    requires ValidOk(s.pairs, s.validList, s.generation) && exists e :: e in s.validList && e.pair == entry
    ensures entry in s.pairs && HasEntry(s.pairs, s.validList, Ends(s.pairs[entry]))
  {
    hide Ends;
    var e :| e in s.validList && e.pair == entry;
    assert EntryOk(s.pairs, e, s.generation);
  }

  lemma ExtendsAt(was: Pairs, now: Pairs, id: nat)
    requires Extends(was, now) && id in was
    ensures id in now && now[id] == was[id]
  {
  }

  lemma SameEntry(was: Pairs, now: Pairs, id: nat)
    requires StatesOnly(was, now) && id in was
    ensures id in now && Ends(now[id]) == Ends(was[id]) && ComponentOf(now, id) == ComponentOf(was, id)
  {
  }

  lemma StatesOnlyHas(was: Pairs, now: Pairs, id: nat)
    requires StatesOnly(was, now) && id in was
    ensures id in now
  {
  }

  // ---- requests ----

  /** A request has its answer in motion: a pair with these ends has succeeded or is queued. */
  ghost predicate Answered(pairs: Pairs, queue: seq<CheckTask>, ends: (Endpoint, Endpoint, Text))
  {
    exists id :: id in pairs && Ends(pairs[id]) == ends
                 && (pairs[id].state.Succeeded? || exists t :: t in queue && t.pair == id)
  }

  lemma AnsweredBy(pairs: Pairs, queue: seq<CheckTask>, id: nat)
    requires id in pairs && (pairs[id].state.Succeeded? || exists t :: t in queue && t.pair == id)
    ensures Answered(pairs, queue, Ends(pairs[id]))
  {
  }

  lemma QueueKeeps(c: Config, s: State, t: CheckTask)
    requires Inv(c, s) && t.pair in s.pairs
    ensures Inv(c, s.(queue := s.queue + [t]))
  {
  }

  /** A new pair in the checklist. */
  lemma NewPairKeeps(s: State, p: Pair)
    requires Core(s) && p.priority == Formula(p, s.controlling) && RemoteKnown(s.remotes, p)
    ensures Core(s.(pairs := s.pairs[s.nextId := p], nextId := s.nextId + 1, checkList := s.checkList + [s.nextId]))
  {
    hide Core, RemoteKnown, Formula;
    StoreKeepsCore(s, p);
    JoinKeepsCore(s.(pairs := s.pairs[s.nextId := p], nextId := s.nextId + 1), s.nextId);
  }

  lemma RemotesKeep(c: Config, s: State, more: seq<Candidate>)
    requires Inv(c, s)
    ensures Inv(c, s.(remotes := s.remotes + more))
  {
    hide Core, SortedBy;
    MoreRemotes(s, more);
  }

  // ---- ending a session ----

  function IsNominated(): ValidPair -> bool { (v: ValidPair) => v.nominated }

  function Unsourced(validList: seq<ValidPair>): seq<ValidPair>
  {
    seq(|validList|, i requires 0 <= i < |validList| => validList[i].(source := None))
  }

  function Unlinked(checks: seq<Check>): seq<Check>
  {
    seq(|checks|, i requires 0 <= i < |checks| => checks[i].(linked := false))
  }

  function Cleared(s: State): State
  {
    s.(checkList := [], queue := [])
  }

  /** A 32-bit counter. */
  function NextGeneration(g: u32): u32 { (g + 1) % 0x1_0000_0000 }

  function AfterRestart(s: State): State
  {
    Cleared(s).(validList := Filter(s.validList, IsNominated()), generation := NextGeneration(s.generation),
                locals := [], remotes := [], checks := Unlinked(s.checks), phase := Init)
  }

  function AfterFree(s: State): State
  {
    Cleared(s).(validList := Unsourced(Filter(s.validList, IsNominated())), locals := [], remotes := [])
  }

  function AfterClose(s: State): State { Cleared(s).(validList := [], phase := Closed) }

  lemma RestartKeeps(c: Config, s: State)
    requires Inv(c, s)
    ensures Inv(c, AfterRestart(s))
  {
    var kept := Filter(s.validList, IsNominated());
    var g := NextGeneration(s.generation);
    FilterValid(s.pairs, s.validList, s.generation, IsNominated());
    NominatedAge(s.pairs, kept, s.generation, g);
    forall k | k in Unlinked(s.checks) ensures k.task.pair in s.pairs {
      var i :| 0 <= i < |s.checks| && Unlinked(s.checks)[i] == k;
      assert s.checks[i] in s.checks;
    }
    hide ValidOk;
  }

  /** Nominated entries belong to any generation. */
  lemma NominatedAge(pairs: Pairs, validList: seq<ValidPair>, generation: u32, next: u32)
    requires ValidOk(pairs, validList, generation) && forall v :: v in validList ==> v.nominated
    ensures ValidOk(pairs, validList, next)
  {
    hide Apart;
    forall v | v in validList ensures EntryOk(pairs, v, next) {
      assert EntryOk(pairs, v, generation);
    }
  }

  lemma UnsourcedValid(pairs: Pairs, validList: seq<ValidPair>, generation: u32)
    requires ValidOk(pairs, validList, generation) && forall v :: v in validList ==> v.nominated
    ensures ValidOk(pairs, Unsourced(validList), generation)
  {
    hide Ends;
    var bare := Unsourced(validList);
    forall v | v in bare ensures EntryOk(pairs, v, generation) {
      var i :| 0 <= i < |bare| && bare[i] == v;
      assert validList[i] in validList && EntryOk(pairs, validList[i], generation);
    }
    forall i, j | 0 <= i < j < |bare| ensures Apart(pairs)(bare[i], bare[j]) {
      assert Apart(pairs)(validList[i], validList[j]);
    }
  }

  lemma FreeKeeps(c: Config, s: State)
    requires Inv(c, s)
    ensures Inv(c, AfterFree(s))
  {
    FilterValid(s.pairs, s.validList, s.generation, IsNominated());
    UnsourcedValid(s.pairs, Filter(s.validList, IsNominated()), s.generation);
    hide ValidOk;
  }

  lemma CloseKeeps(c: Config, s: State)
    requires Inv(c, s)
    ensures Inv(c, AfterClose(s))
  {
  }

  lemma MoreChecks(c: Config, s: State, k: Check)
    requires Inv(c, s) && k.task.pair in s.pairs
    ensures Inv(c, s.(checks := s.checks + [k]))
  {
  }

  lemma SameChecks(c: Config, s: State, i: nat, k: Check)
    requires Inv(c, s) && i < |s.checks| && k.task == s.checks[i].task
    ensures Inv(c, s.(checks := s.checks[i := k]))
  {
    assert s.checks[i] in s.checks;
  }

  /** Another transaction of this pair is still indexed. */
  ghost predicate Indexed(checks: seq<Check>, id: nat)
  {
    exists k :: k in checks && k.task.pair == id && k.linked
  }

  lemma IndexedOrNot(checks: seq<Check>, id: nat, j: nat)
    requires j <= |checks| && (j < |checks| ==> checks[j].task.pair == id && checks[j].linked)
    requires forall i :: 0 <= i < j ==> !(checks[i].task.pair == id && checks[i].linked)
    ensures Indexed(checks, id) <==> j < |checks|
  {
    if j < |checks| { assert checks[j] in checks; }
  }

  function Failing(s: State, id: nat): State
    requires id in s.pairs
  {
    s.(pairs := s.pairs[id := s.pairs[id].(state := Failed)], validList := Filter(s.validList, NotFrom(id)))
  }

  ghost predicate Listed(validList: seq<ValidPair>, pair: nat, source: Option<nat>, generation: u32)
  {
    exists v :: v in validList && v.pair == pair && v.source == source && v.generation == generation
  }

  /** The candidate learned from an address that no local candidate has. */
  function Reflected(p: Pair, mapped: Endpoint, foundation: Text): Candidate
  {
    Candidate(foundation, p.local.component, p.local.transportType, CandidatePriority(p.local.component, Prflx, 65535),
              mapped, Prflx, Some(p.local.endpoint), p.local.transport)
  }

  /** The local candidate a valid pair gets, and the local candidates afterwards. */
  ghost predicate LocalTaken(locals: seq<Candidate>, p: Pair, mapped: Endpoint, foundation: Text,
                             l: Candidate, after: seq<Candidate>)
  {
    && l in after && l.endpoint == mapped && SameIgnoringCase(l.transportType, p.local.transportType)
    && (after == locals || (l == Reflected(p, mapped, foundation) && after == locals + [l]))
  }

  function MappedEnds(p: Pair, mapped: Endpoint): (Endpoint, Endpoint, Text)
  {
    (mapped, p.remote.endpoint, Fold(p.local.transportType))
  }

  /** What `construct_valid_pair` returns and leaves: the pair itself, a listed pair on the mapped
      address, or a new one. */
  ghost predicate Constructed(s: State, id: nat, mapped: Endpoint, foundation: Text, v: nat, t: State)
    requires id in s.pairs
  {
    var p := s.pairs[id];
    if mapped == p.local.endpoint then v == id && t == s
    else
      || (v in s.checkList && v in s.pairs && Ends(s.pairs[v]) == MappedEnds(p, mapped) && t == s)
      || (v == s.nextId && exists l ::
            && LocalTaken(s.locals, p, mapped, foundation, l, t.locals)
            && t == s.(pairs := s.pairs[v := Pair(l, p.remote, PairPriority(l.priority, p.remote.priority, s.controlling), Frozen)],
                       nextId := v + 1, locals := t.locals))
  }

  /** A pair joins the valid list unless an entry with its ends is there; `entry` is that entry's pair. */
  ghost predicate Entered(s: State, v: nat, source: nat, entry: nat, t: State)
    requires v in s.pairs
  {
    if NoEntry(s.pairs, s.validList, Ends(s.pairs[v])) then
      && entry == v
      && t == s.(pairs := s.pairs[v := s.pairs[v].(state := Succeeded)],
                 validList := s.validList + [ValidPair(v, Some(source), false, s.generation)])
    else
      && t == s && entry in s.pairs && Ends(s.pairs[entry]) == Ends(s.pairs[v])
      && exists e :: e in s.validList && e.pair == entry
  }

  /** Nobody can tell the base of a candidate learned through this pair. */
  predicate Baseless(p: Pair, mapped: Endpoint)
  {
    mapped != p.local.endpoint && p.local.kind != Host && p.local.related.None?
  }

  function WithState(s: State, id: nat, state: PairState): State
    requires id in s.pairs
  {
    s.(pairs := s.pairs[id := s.pairs[id].(state := state)])
  }

  /** The valid pair of a successful check is constructed and entered, and the check's pair succeeds. */
  ghost predicate Promoted(s: State, id: nat, mapped: Endpoint, foundation: Text, entry: nat, t: State)
    requires id in s.pairs
  {
    exists v, c, e ::
      && Constructed(s, id, mapped, foundation, v, c) && v in c.pairs
      && Entered(c, v, id, entry, e) && id in e.pairs
      && t == WithState(e, id, Succeeded)
  }

  /** A successful check, step by step: its valid pair is entered and, if that was asked for,
      nominated; then the check completes. */
  ghost predicate Validates(config: Config, s: State, id: nat, useCandidate: bool, mapped: Endpoint, foundation: Text, t: State)
    requires id in s.pairs
  {
    || (Baseless(s.pairs[id], mapped) && t == Failing(s, id))
    || exists entry, p, n ::
         && Promoted(s, id, mapped, foundation, entry, p)
         && (if useCandidate then NominationTried(config, p, entry, n) else n == p)
         && Completed(config, n, id, t)
  }

  /** What that means: the pair has succeeded, or is queued again with use-candidate, and an entry
      joins the mapped address to the remote candidate; a new entry names the check's pair as its
      source. A check that asked a live agent for nomination has a nominated entry in its component.
      The one exception is a base that cannot be told. */
  ghost predicate Validated(s: State, id: nat, useCandidate: bool, mapped: Endpoint, t: State)
    requires id in s.pairs
  {
    var ends := MappedEnds(s.pairs[id], mapped);
    || (Baseless(s.pairs[id], mapped) && Lost(t, id))
    || exists e ::
         && e in t.pairs && Ends(t.pairs[e]) == ends
         && HasEntry(t.pairs, t.validList, ends)
         && (NoEntry(s.pairs, s.validList, ends) ==> Listed(t.validList, e, Some(id), s.generation))
         && (useCandidate && !s.phase.Closed? && !s.phase.Connected? ==>
               HasNominated(t.pairs, t.validList, ComponentOf(t.pairs, e)))
         && Won(t, id)
  }

  predicate Lost(t: State, id: nat) { id in t.pairs && t.pairs[id].state.Failed? }

  ghost predicate Won(t: State, id: nat)
  {
    id in t.pairs && (t.pairs[id].state.Succeeded? || CheckTask(id, true) in t.queue)
  }

  lemma CompletedWon(config: Config, s: State, id: nat, t: State)
    requires Completed(config, s, id, t) && id in s.pairs && s.pairs[id].state.Succeeded?
    ensures Won(t, id)
  {
    hide Foundation, Wanted, SortedBy, AsksFor;
    var mid :| Released(s.pairs, s.checkList, Foundation(s.pairs[id]), mid)
               && DefaultNominated(config, s.(pairs := mid), t);
    assert mid[id] == s.pairs[id];
    if !(s.phase.Closed? || s.phase.Connected? || !s.controlling) {
      var added := t.queue[|s.queue|..];
      if exists q :: q in added && q.pair == id {
        var q :| q in added && q.pair == id;
        AskedWithCandidate(mid, t.validList, Wanted(mid, t.validList, config.components), added, q);
        assert q in t.queue;
      }
    }
  }

  lemma AskedWithCandidate(pairs: Pairs, validList: seq<ValidPair>, components: seq<nat>, tasks: seq<CheckTask>, q: CheckTask)
    requires AsksFor(pairs, validList, components, tasks) && q in tasks
    ensures q == CheckTask(q.pair, true)
  {
    var i :| 0 <= i < |tasks| && tasks[i] == q;
    assert Asks(pairs, validList, components[i], tasks[i]);
  }

  lemma StillListed(before: seq<ValidPair>, after: seq<ValidPair>, pair: nat, source: Option<nat>, generation: u32)
    requires multiset(after) == multiset(before) && Listed(before, pair, source, generation)
    ensures Listed(after, pair, source, generation)
  {
    PermutationMembers(before, after);
  }

  /** Nomination marks an entry and keeps all else about it. */
  lemma NominationListed(s: State, i: nat, source: Option<nat>, generation: u32)
    requires ValidOk(s.pairs, s.validList, s.generation) && i < |s.validList|
    requires Listed(s.validList, s.validList[i].pair, source, generation)
    ensures Listed(AfterNomination(s.pairs, s.validList, s.generation, i), s.validList[i].pair, source, generation)
  {
    hide Ends, ComponentOf;
    var v :| v in s.validList && v.pair == s.validList[i].pair && v.source == source && v.generation == generation;
    var j :| 0 <= j < |s.validList| && s.validList[j] == v;
    OnePerPair(s, i, j);
    var marked := Mark(s.validList, i);
    assert marked[i] in marked && Survives(s.pairs, s.validList[i].pair, s.generation)(marked[i]);
  }

  lemma DifferentPairs(s: State, i: nat, j: nat)
    requires ValidOk(s.pairs, s.validList, s.generation) && i < j < |s.validList|
    ensures s.validList[i].pair != s.validList[j].pair
  {
    hide Ends;
    assert EntryOk(s.pairs, s.validList[i], s.generation);
    assert Apart(s.pairs)(s.validList[i], s.validList[j]);
  }

  lemma OnePerPair(s: State, i: nat, j: nat)
    requires ValidOk(s.pairs, s.validList, s.generation) && i < |s.validList| && j < |s.validList|
    requires s.validList[i].pair == s.validList[j].pair
    ensures i == j
  {
    hide ValidOk;
    if i < j {
      DifferentPairs(s, i, j);
    } else if j < i {
      DifferentPairs(s, j, i);
    }
  }

  /** Pairs that were not in the store cannot be in the valid list. */
  lemma NoEntryExtends(s: State, now: Pairs, ends: (Endpoint, Endpoint, Text))
    requires ValidOk(s.pairs, s.validList, s.generation) && Extends(s.pairs, now)
    ensures NoEntry(s.pairs, s.validList, ends) <==> NoEntry(now, s.validList, ends)
  {
    hide Ends;
    forall v | v in s.validList ensures v.pair in s.pairs && v.pair in now && now[v.pair] == s.pairs[v.pair] {
      assert EntryOk(s.pairs, v, s.generation);
    }
  }

  lemma ReprioritisedKeys(pairs: Pairs, ids: seq<nat>, controlling: bool)
    ensures Reprioritised(pairs, ids, controlling).Keys == pairs.Keys
  {
  }

  lemma PhaseStepFrom(config: Config, was: State, s: State, t: State)
    requires s.phase == was.phase && PhaseStep(config, s, t)
    ensures PhaseStep(config, was, t)
  {
  }

  lemma ListedLast(validList: seq<ValidPair>, pair: nat, source: nat, generation: u32)
    ensures Listed(validList + [ValidPair(pair, Some(source), false, generation)], pair, Some(source), generation)
  {
    var more := validList + [ValidPair(pair, Some(source), false, generation)];
    assert more[|validList|] in more;
  }

  lemma ConstructedKeeps(s: State, id: nat, mapped: Endpoint, foundation: Text, v: nat, t: State)
    requires id in s.pairs && Constructed(s, id, mapped, foundation, v, t)
    ensures t.validList == s.validList && t.generation == s.generation
  {
    hide PairPriority, LocalTaken;
  }

  lemma EnteredLists(s: State, v: nat, source: nat, entry: nat, t: State)
    requires v in s.pairs && Entered(s, v, source, entry, t)
    ensures NoEntry(s.pairs, s.validList, Ends(s.pairs[v])) ==> Listed(t.validList, entry, Some(source), s.generation)
  {
    hide NoEntry, Listed, Ends;
    ListedLast(s.validList, entry, source, s.generation);
  }
}
