/** What a restart leaves behind: nominated entries outlive their generation, and only `set_nominated`
    looks at the generation. When that does no harm, and what it does otherwise. */
module AgentRestart {
  import opened Wire
  import opened Order
  import opened Lists
  import opened Candidates
  import opened AgentState
  import opened AgentNomination
  import opened AgentSteps
  import Roles

  /** The component has a nominated entry of this generation. */
  ghost predicate CurrentFor(pairs: Pairs, validList: seq<ValidPair>, generation: u32, c: nat)
  {
    exists v :: v in validList && NominatedFor(pairs, v, c) && v.generation == generation
  }

  // ---- connecting ----

  /** Every nominated entry of another component is of this generation. */
  ghost predicate OthersCurrent(config: Config, s: State, i: nat)
    requires i < |s.validList|
  {
    forall v :: v in s.validList && OfOther(config, s, i, v) ==> v.generation == s.generation
  }

  predicate OfOther(config: Config, s: State, i: nat, v: ValidPair)
    requires i < |s.validList|
  {
    && v.nominated && 1 <= ComponentOf(s.pairs, v.pair) <= config.components
    && ComponentOf(s.pairs, v.pair) != ComponentOf(s.pairs, s.validList[i].pair)
  }

  /** The entry that is nominated is of this generation, and stays. */
  lemma NominatedIsCurrent(config: Config, s: State, i: nat)
    requires Inv(config, s) && i < |s.validList| && Nominable(s, i)
    ensures var t := Nominated(config, s, i);
            CurrentFor(t.pairs, t.validList, t.generation, ComponentOf(s.pairs, s.validList[i].pair))
  {
    hide ComponentOf, AllNominated, OtherPairs, OtherTasks;
    ValidEntryFacts(config, s, i);
    var marked := Mark(s.validList, i);
    assert marked[i] in marked && Survives(s.pairs, s.validList[i].pair, s.generation)(marked[i]);
    assert NominatedFor(s.pairs, marked[i], ComponentOf(s.pairs, s.validList[i].pair));
  }

  /** Nominated entries of other components are untouched. */
  lemma OthersUntouched(config: Config, s: State, i: nat, v: ValidPair)
    requires i < |s.validList| && ComponentOf(s.pairs, v.pair) != ComponentOf(s.pairs, s.validList[i].pair)
    ensures v in Nominated(config, s, i).validList <==> v in s.validList
  {
    hide ComponentOf, AllNominated, OtherPairs, OtherTasks;
    var marked := Mark(s.validList, i);
    if v in s.validList {
      var k :| 0 <= k < |s.validList| && s.validList[k] == v;
      assert marked[k] == v;
    }
    if v in marked {
      var k :| 0 <= k < |marked| && marked[k] == v;
      assert k != i;
    }
  }

  lemma OneNominated(config: Config, s: State, c: nat, v: ValidPair, w: ValidPair)
    requires Inv(config, s) && v in s.validList && w in s.validList
    requires NominatedFor(s.pairs, v, c) && NominatedFor(s.pairs, w, c)
    ensures v == w
  {
    hide Ends, ValidOk;
    CoreValid(s);
    NominatedOnce(s.pairs, s.validList, s.generation, c);
  }

  /** A nomination that connects leaves every component nominated in this generation if and only if
      every other component's nominated entry was of this generation before. */
  lemma ConnectedAfresh(config: Config, s: State, i: nat)
    requires Inv(config, s) && i < |s.validList| && Nominable(s, i) && Nominated(config, s, i).phase.Connected?
    ensures var t := Nominated(config, s, i);
            (forall c :: 1 <= c <= config.components ==> CurrentFor(t.pairs, t.validList, t.generation, c))
            <==> OthersCurrent(config, s, i)
  {
    hide Inv, ComponentOf, AfterNomination, OtherPairs, OtherTasks, Nominable;
    var t := Nominated(config, s, i);
    var mine := ComponentOf(s.pairs, s.validList[i].pair);
    NominatedIsCurrent(config, s, i);
    assert AllNominated(t.pairs, t.validList, config.components) by { NotOver(s, i); }
    if OthersCurrent(config, s, i) {
      forall c: nat | 1 <= c <= config.components ensures CurrentFor(t.pairs, t.validList, t.generation, c) {
        if c != mine {
          assert HasNominated(t.pairs, t.validList, c);
          var v :| v in t.validList && NominatedFor(t.pairs, v, c);
          OthersUntouched(config, s, i, v);
        }
      }
    }
    if forall c :: 1 <= c <= config.components ==> CurrentFor(t.pairs, t.validList, t.generation, c) {
      forall v | v in s.validList && OfOther(config, s, i, v) ensures v.generation == s.generation {
        var c: nat := ComponentOf(s.pairs, v.pair);
        assert CurrentFor(t.pairs, t.validList, t.generation, c);
        var w :| w in t.validList && NominatedFor(t.pairs, w, c) && w.generation == t.generation;
        OthersUntouched(config, s, i, w);
        OneNominated(config, s, c, v, w);
      }
    }
  }

  // ---- asking for nominations ----

  /** The components that ought to be asked for: a valid pair, and no nominated one of this generation. */
  ghost function WantedNow(pairs: Pairs, validList: seq<ValidPair>, generation: u32, n: nat): seq<nat>
  {
    if n == 0 then []
    else
      WantedNow(pairs, validList, generation, n - 1)
      + if HasValid(pairs, validList, n) && !CurrentFor(pairs, validList, generation, n) then [n] else []
  }

  /** Such a component with an older nominated entry. */
  ghost predicate HeldBack(pairs: Pairs, validList: seq<ValidPair>, generation: u32, c: nat)
  {
    HasValid(pairs, validList, c) && !CurrentFor(pairs, validList, generation, c) && HasNominated(pairs, validList, c)
  }

  lemma {:induction false} WantedCompare(pairs: Pairs, validList: seq<ValidPair>, generation: u32, n: nat)
    ensures |Wanted(pairs, validList, n)| <= |WantedNow(pairs, validList, generation, n)|
    ensures (forall c :: 1 <= c <= n ==> !HeldBack(pairs, validList, generation, c)) ==>
              Wanted(pairs, validList, n) == WantedNow(pairs, validList, generation, n)
    ensures (exists c :: 1 <= c <= n && HeldBack(pairs, validList, generation, c)) ==>
              |Wanted(pairs, validList, n)| < |WantedNow(pairs, validList, generation, n)|
  {
    hide HasValid, NominatedFor;
    if n > 0 {
      WantedCompare(pairs, validList, generation, n - 1);
      var held := HeldBack(pairs, validList, generation, n);
    }
  }

  lemma SameEntries(pairs: Pairs, before: seq<ValidPair>, after: seq<ValidPair>, generation: u32, c: nat)
    requires multiset(after) == multiset(before)
    ensures HeldBack(pairs, after, generation, c) <==> HeldBack(pairs, before, generation, c)
  {
    hide NominatedFor, ComponentOf;
    PermutationMembers(before, after);
  }

  /** The controlling agent asks for exactly the components that have a valid pair and no nomination of
      this generation if and only if none of them has an older nominated entry. */
  lemma AsksForAll(config: Config, s: State, t: State)
    requires DefaultNominated(config, s, t) && s.controlling && !s.phase.Closed? && !s.phase.Connected?
    ensures AsksFor(s.pairs, t.validList, WantedNow(s.pairs, t.validList, s.generation, config.components),
                    t.queue[|s.queue|..])
            <==> forall c :: 1 <= c <= config.components ==> !HeldBack(s.pairs, s.validList, s.generation, c)
  {
    hide HeldBack, Asks, Woken, SortedBy, Wanted, WantedNow;
    WantedCompare(s.pairs, t.validList, s.generation, config.components);
    forall c ensures HeldBack(s.pairs, t.validList, s.generation, c) <==> HeldBack(s.pairs, s.validList, s.generation, c) {
      SameEntries(s.pairs, s.validList, t.validList, s.generation, c);
    }
  }

  // ---- the restarted agent with one component ----

  /** Nobody can take this nominated entry of component 1 away: no check is, or is about to be, under
      way on the pair it came from, nor does any ask for a nomination. */
  ghost predicate Anchored(s: State, v: ValidPair)
  {
    && v in s.validList && NominatedFor(s.pairs, v, 1) && v.pair in s.pairs
    && (v.source.Some? ==> v.source.value in s.pairs)
    && (forall k :: k in s.checks ==> Harmless(v, k.task) && !k.useCandidate)
    && (forall q :: q in s.queue ==> Harmless(v, q))
    && (forall id :: id in s.checkList ==> v.source != Some(id))
  }

  predicate Harmless(v: ValidPair, q: CheckTask) { !q.useCandidate && v.source != Some(q.pair) }

  ghost predicate Stuck(s: State, v: ValidPair)
  {
    s.phase.Closed? || (s.controlling && !s.lite && !s.phase.Connected? && Anchored(s, v))
  }

  /** Only pair states, priorities, the order of the lists or fields that do not matter differ. */
  lemma StillAnchored(s: State, t: State, v: ValidPair)
    requires Anchored(s, v) && Kept(s.pairs, t.pairs) && v in t.validList
    requires forall k :: k in t.checks ==> k in s.checks || (Harmless(v, k.task) && !k.useCandidate)
    requires forall q :: q in t.queue ==> q in s.queue || Harmless(v, q)
    requires forall id :: id in t.checkList ==> id in s.checkList || id !in s.pairs
    ensures Anchored(t, v)
  {
    hide Harmless;
    assert NominatedFor(t.pairs, v, 1) by { hide Kept; SameEnds(s.pairs, t.pairs, v.pair); }
  }

  /** With a nominated entry for its only component the controlling agent asks for nothing. */
  lemma NothingAsked(config: Config, s: State, t: State, v: ValidPair)
    requires DefaultNominated(config, s, t) && config.components == 1 && v in s.validList && NominatedFor(s.pairs, v, 1)
    ensures t == s.(pairs := t.pairs, validList := t.validList) && Kept(s.pairs, t.pairs) && v in t.validList
  {
    hide NominatedFor, SortedBy, HasValid, Woken, Kept;
    if s.phase.Closed? || s.phase.Connected? || !s.controlling {
      KeptSelf(s.pairs);
    } else {
      PermutationMembers(s.validList, t.validList);
      assert HasNominated(s.pairs, t.validList, 1);
      assert Wanted(s.pairs, t.validList, 1) == Wanted(s.pairs, t.validList, 0) + [];
      assert t.queue == t.queue[..|s.queue|] + t.queue[|s.queue|..];
      WokenKept(s.pairs, t.queue[|s.queue|..], t.pairs);
    }
  }

  lemma KeptSelf(pairs: Pairs)
    ensures Kept(pairs, pairs)
  {
  }

  lemma WokenKept(was: Pairs, tasks: seq<CheckTask>, now: Pairs)
    requires Woken(was, tasks, now)
    ensures Kept(was, now)
  {
  }

  lemma StatesOnlyKept(was: Pairs, now: Pairs)
    requires StatesOnly(was, now)
    ensures Kept(was, now)
  {
  }

  lemma KeptTransitive(a: Pairs, b: Pairs, c: Pairs)
    requires Kept(a, b) && Kept(b, c)
    ensures Kept(a, c)
  {
  }

  lemma CompletedStuck(config: Config, s: State, id: nat, t: State, v: ValidPair)
    requires Completed(config, s, id, t) && config.components == 1 && id in s.pairs && s.pairs[id].state.Succeeded?
    requires Anchored(s, v)
    ensures Anchored(t, v) && t == s.(pairs := t.pairs, validList := t.validList)
  {
    hide Foundation, Released, DefaultNominated, StatesOnly, Kept, Harmless, Anchored;
    AnchoredEntry(s, v);
    var mid :| Released(s.pairs, s.checkList, Foundation(s.pairs[id]), mid)
               && DefaultNominated(config, s.(pairs := mid), t);
    ReleasedStatesOnly(s.pairs, s.checkList, Foundation(s.pairs[id]), mid);
    StatesOnlyKept(s.pairs, mid);
    SameNominated(s.pairs, mid, v, 1);
    NothingAsked(config, s.(pairs := mid), t, v);
    KeptTransitive(s.pairs, mid, t.pairs);
    StillAnchored(s, t, v);
  }

  lemma AnchoredEntry(s: State, v: ValidPair)
    requires Anchored(s, v)
    ensures v in s.validList && NominatedFor(s.pairs, v, 1) && v.pair in s.pairs
  {
  }

  /** A check on another pair fails. */
  lemma FailingStuck(s: State, id: nat, v: ValidPair)
    requires Anchored(s, v) && id in s.pairs && v.source != Some(id)
    ensures Anchored(Failing(s, id), v)
  {
    hide Harmless;
    StillAnchored(s, Failing(s, id), v);
  }

  lemma StateStuck(s: State, id: nat, state: PairState, v: ValidPair)
    requires Anchored(s, v) && id in s.pairs
    ensures Anchored(WithState(s, id, state), v)
  {
    hide Harmless;
    StillAnchored(s, WithState(s, id, state), v);
  }

  lemma ConstructedStuck(s: State, id: nat, mapped: Endpoint, foundation: Text, x: nat, t: State, v: ValidPair)
    requires id in s.pairs && s.nextId !in s.pairs && Constructed(s, id, mapped, foundation, x, t) && Anchored(s, v)
    ensures Anchored(t, v) && id in t.pairs
    ensures t == s.(pairs := t.pairs, nextId := t.nextId, locals := t.locals)
  {
    hide Harmless, Ends, PairPriority, LocalTaken, MappedEnds;
    StillAnchored(s, t, v);
  }

  lemma EnteredStuck(s: State, x: nat, source: nat, entry: nat, t: State, v: ValidPair)
    requires x in s.pairs && Entered(s, x, source, entry, t) && Anchored(s, v)
    ensures Anchored(t, v) && t == s.(pairs := t.pairs, validList := t.validList) && t.pairs.Keys == s.pairs.Keys
  {
    hide Harmless, NoEntry, Ends;
    StillAnchored(s, t, v);
  }

  lemma PromotedStuck(s: State, id: nat, mapped: Endpoint, foundation: Text, entry: nat, t: State, v: ValidPair)
    requires id in s.pairs && s.nextId !in s.pairs && Promoted(s, id, mapped, foundation, entry, t) && Anchored(s, v)
    ensures Anchored(t, v) && id in t.pairs && t.pairs[id].state.Succeeded?
    ensures t == s.(pairs := t.pairs, nextId := t.nextId, locals := t.locals, validList := t.validList)
  {
    hide Anchored, Constructed, Entered;
    var x, c, e :| && Constructed(s, id, mapped, foundation, x, c) && x in c.pairs
                   && Entered(c, x, id, entry, e) && id in e.pairs && t == WithState(e, id, Succeeded);
    ConstructedStuck(s, id, mapped, foundation, x, c, v);
    EnteredStuck(c, x, id, entry, e, v);
    StateStuck(e, id, Succeeded, v);
  }

  /** A successful check that does not ask for nomination. */
  lemma ValidatesStuck(config: Config, s: State, id: nat, mapped: Endpoint, foundation: Text, t: State, v: ValidPair)
    requires id in s.pairs && s.nextId !in s.pairs && config.components == 1 && v.source != Some(id)
    requires Validates(config, s, id, false, mapped, foundation, t) && Anchored(s, v)
    ensures Anchored(t, v) && t.phase == s.phase && t.controlling == s.controlling && t.lite == s.lite
  {
    hide Anchored, Promoted, Completed;
    if Baseless(s.pairs[id], mapped) && t == Failing(s, id) {
      FailingStuck(s, id, v);
    } else {
      var entry, p, n :| Promoted(s, id, mapped, foundation, entry, p) && n == p && Completed(config, n, id, t);
      PromotedStuck(s, id, mapped, foundation, entry, p, v);
      CompletedStuck(config, p, id, t, v);
    }
  }

  lemma FinishedStuck(config: Config, s: State, k: Check, outcome: Outcome, t: State, v: ValidPair)
    requires k.task.pair in s.pairs && Finished(config, s, k, outcome, t)
    requires s.nextId !in s.pairs && config.components == 1
    requires Anchored(s, v) && Harmless(v, k.task) && !k.useCandidate
    ensures Anchored(t, v) && t.phase == s.phase && t.controlling == s.controlling && t.lite == s.lite
  {
    hide Anchored, Validates, Validated, Completed, Indexed;
    var id := k.task.pair;
    match outcome
    case Canceled => if t != s { StateStuck(s, id, Waiting, v); }
    case Failure => FailingStuck(s, id, v);
    case RoleConflict(_) =>
      if !s.lite && s.pairs[id].state.Succeeded? {
        CompletedStuck(config, s, id, t, v);
      } else {
        FailingStuck(s, id, v);
      }
    case Success(mapped, foundation) => ValidatesStuck(config, s, id, mapped, foundation, t, v);
  }

  lemma SwitchedStuck(s: State, control: bool, t: State, v: ValidPair)
    requires RoleSwitched(s, control, t) && Anchored(s, v)
    ensures Anchored(t, v) && t.nextId == s.nextId && t.pairs.Keys == s.pairs.Keys
    ensures t == s.(controlling := t.controlling, pairs := t.pairs, checkList := t.checkList)
  {
    hide Harmless, Formula, SortedBy;
    PermutationMembers(s.checkList, t.checkList);
    StillAnchored(s, t, v);
  }

  lemma CheckOverStuck(config: Config, s: State, i: nat, outcome: Outcome, t: State, v: ValidPair)
    requires i < |s.checks| && s.checks[i].task.pair in s.pairs && CheckOver(config, s, i, outcome, t)
    requires s.nextId !in s.pairs && config.components == 1 && Anchored(s, v)
    ensures Anchored(t, v) && t.phase == s.phase && t.lite == s.lite
  {
    hide Finished, RoleSwitched, Harmless;
    var k := s.checks[i];
    assert k in s.checks;
    MembersOfWithout(s.checks, i);
    if outcome.RoleConflict? && !s.lite {
      var mid :| RoleSwitched(s, !k.controlling, mid)
        && if k.tries < 10 then
             t == mid.(tie := outcome.drawn,
                       checks := s.checks[i := Check(k.task, k.task.useCandidate, mid.controlling, k.tries + 1, true)])
           else
             && k.task.pair in mid.pairs
             && Finished(config, mid.(tie := outcome.drawn, checks := Without(s.checks, i)), k, outcome, t);
      SwitchedStuck(s, !k.controlling, mid, v);
      if k.tries < 10 {
        AgainHarmless(v, k, mid.controlling);
        StillAnchored(mid, t, v);
      } else {
        var u := mid.(tie := outcome.drawn, checks := Without(s.checks, i));
        StillAnchored(mid, u, v);
        FinishedStuck(config, u, k, outcome, t, v);
      }
    } else {
      var u := s.(checks := Without(s.checks, i));
      StillAnchored(s, u, v);
      FinishedStuck(config, u, k, outcome, t, v);
    }
  }

  lemma AgainHarmless(v: ValidPair, k: Check, controlling: bool)
    requires Harmless(v, k.task)
    ensures !Check(k.task, k.task.useCandidate, controlling, k.tries + 1, true).useCandidate
  {
  }

  lemma GrownStuck(s: State, t: State, v: ValidPair)
    requires Grown(s.pairs, s.checkList, t.pairs, t.checkList) && Anchored(s, v)
    requires t == s.(pairs := t.pairs, nextId := t.nextId, checkList := t.checkList, locals := t.locals, remotes := t.remotes)
    ensures Anchored(t, v)
  {
    hide Harmless, Dominates, Pruned;
    StillAnchored(s, t, v);
  }

  lemma ConnectStuck(s: State, ready: bool, t: State, v: ValidPair)
    requires ConnectStarted(s, ready, t) && Anchored(s, v)
    ensures Anchored(t, v)
  {
    hide Harmless, SortedBy, Tops, Started;
    if t != s {
      var tops :| Tops(s.pairs, t.checkList, tops) && Started(s.pairs, tops, t.pairs);
      StartedStatesOnly(s.pairs, tops, t.pairs);
      StatesOnlyKept(s.pairs, t.pairs);
      PermutationMembers(s.checkList, t.checkList);
      StillAnchored(s, t, v);
    }
  }

  /** What the scheduler picks is harmless. */
  lemma PickedStuck(s: State, task: Option<CheckTask>, t: State, v: ValidPair)
    requires NextPicked(s, task, t) && Anchored(s, v)
    ensures Anchored(t, v) && (task.Some? ==> Harmless(v, task.value))
    ensures t == s.(pairs := t.pairs, queue := t.queue)
  {
    hide SomeWaiting, Stalled, Thaws;
    if s.checkList != [] && s.queue != [] {
      assert s.queue[0] in s.queue;
      KeptSelf(s.pairs);
    } else if s.checkList != [] && t != s {
      ThawedStatesOnly(s.pairs, s.checkList, t.pairs);
      StatesOnlyKept(s.pairs, t.pairs);
    }
    if t != s { StillAnchored(s, t, v); }
  }

  lemma BegunStuck(s: State, task: CheckTask, v: ValidPair)
    requires Anchored(s, v) && task.pair in s.pairs && Harmless(v, task) && !s.lite
    ensures Anchored(Begun(s, task), v)
  {
    StillAnchored(s, Begun(s, task), v);
  }

  lemma TickStuck(config: Config, s: State, t: State, v: ValidPair)
    requires Ticked(config, s, t) && Anchored(s, v) && !s.lite
    ensures Anchored(t, v) && t.controlling == s.controlling && t.lite == s.lite
  {
    hide Anchored, NextPicked, Harmless;
    if s.phase.Connecting? {
      var task, mid :| NextPicked(s, task, mid)
        && if task.Some? && |s.checks| < config.maxPending
           then task.value.pair in mid.pairs && t == Begun(mid, task.value) else t == mid;
      PickedStuck(s, task, mid, v);
      if task.Some? && |s.checks| < config.maxPending { BegunStuck(mid, task.value, v); }
    }
  }

  lemma ReceivedStuck(s: State, r: Binding, reply: Reply, t: State, v: ValidPair)
    requires RequestReceived(s, r, reply, t) && Anchored(s, v)
    ensures Anchored(t, v) && t.phase == s.phase && t.lite == s.lite
  {
    hide RoleSwitched, Harmless, Roles.OnRequest;
    if t != s {
      var u := t.(handling := s.handling);
      if u != s {
        assert RoleSwitched(s, u.controlling, u) by { SwitchedTo(s, r, reply, t); }
        SwitchedStuck(s, u.controlling, u, v);
      }
      KeptSelf(u.pairs);
      StillAnchored(u, t, v);
    }
  }

  lemma SwitchedTo(s: State, r: Binding, reply: Reply, t: State)
    requires RequestReceived(s, r, reply, t) && t.(handling := s.handling) != s
    ensures RoleSwitched(s, t.controlling, t.(handling := s.handling))
  {
    hide Reprioritised, SortedBy;
  }

  lemma RequeuedStuck(s: State, id: nat, v: ValidPair)
    requires Anchored(s, v) && id in s.pairs && id in s.checkList
    ensures Anchored(Requeued(s, id, false), v)
  {
    StillAnchored(s, Requeued(s, id, false), v);
  }

  lemma NewStuck(s: State, l: Candidate, r: Candidate, t: State, v: ValidPair)
    requires NewTriggered(s, l, r, false, t) && Anchored(s, v) && s.nextId !in s.pairs
    ensures Anchored(t, v)
  {
    hide SortedBy, PairPriority;
    PermutationMembers(s.checkList + [s.nextId], t.checkList);
    StillAnchored(s, t, v);
  }

  lemma TriggeredStuck(config: Config, s: State, l: Candidate, r: Candidate, t: State, v: ValidPair)
    requires Triggered(config, s, l, r, false, t) && Anchored(s, v) && s.nextId !in s.pairs
    ensures Anchored(t, v) && t.phase == s.phase && t.controlling == s.controlling && t.lite == s.lite
  {
    hide Ends, SortedBy, PairPriority, Between, Anchored, InQueue;
    if id :| id in s.checkList && id in s.pairs && Ends(s.pairs[id]) == Between(l, r)
             && ListedTriggered(config, s, id, false, t) {
      RequeuedStuck(s, id, v);
    } else {
      NewStuck(s, l, r, t, v);
    }
  }

  lemma ActedStuck(config: Config, s: State, h: Handling, foundation: Text, t: State, v: ValidPair)
    requires Acted(config, s, h, foundation, t) && Anchored(s, v) && s.controlling && s.nextId !in s.pairs
    ensures Anchored(t, v) && t.phase == s.phase && t.controlling == s.controlling && t.lite == s.lite
  {
    hide Triggered, Mine, Harmless;
    if t != s {
      var l, r, mid :| l in s.locals && Mine(config, h, l) && RemoteLearned(s, l, h, foundation, r, mid)
        && Triggered(config, mid, l, r, !s.controlling && h.useCandidate, t);
      StillAnchored(s, mid, v);
      TriggeredStuck(config, mid, l, r, t, v);
    }
  }

  /** One event of a run. The only ways out are another role, a lite peer, and closing. */
  lemma StepStuck(config: Config, e: Event, s: State, t: State, v: ValidPair)
    requires Inv(config, s) && Effect(config, e, s, t) && Allowed(config, e, s, t)
    requires config.components == 1 && Stuck(s, v)
    requires t.controlling && !t.lite
    ensures Stuck(t, v)
  {
    hide Core, SortedBy, Anchored, Grown, Paired, Unknown, ConnectStarted, Ticked, CheckOver, RequestReceived, Acted,
         RoleSwitched, Connects;
    CoreRefs(s);
    if !s.phase.Closed? {
      match e
      case LocalsFound(_, _) => GrownStuck(s, t, v);
      case RemoteSignalled(_, _) => if t != s { GrownStuck(s, t, v); }
      case RemoteResolved(_) => if t != s { GrownStuck(s, t, v); }
      case LiteKnown(_) => LiteStuck(s, e.isLite, t, v);
      case ConnectCalled(ready) =>
        ConnectStuck(s, ready, t, v);
        ConnectPhase(s, ready, t);
      case TimerFired =>
        TickStuck(config, s, t, v);
        TickKeepsPhase(config, s, t);
      case CheckEnded(i, outcome) => if i < |s.checks| { CheckOverStuck(config, s, i, outcome, t, v); }
      case RequestArrived(r) =>
        var reply :| RequestReceived(s, r, reply, t);
        ReceivedStuck(s, r, reply, t, v);
      case RequestContinues(i, foundation) =>
        if i < |s.handling| && s.phase.Connecting? {
          var u := s.(handling := Without(s.handling, i));
          HandlingStuck(s, u, v);
          ActedStuck(config, u, s.handling[i], foundation, t, v);
        }
      case CloseCalled =>
      case RestartCalled =>
      case CandidatesFreed =>
    }
  }

  lemma HandlingStuck(s: State, t: State, v: ValidPair)
    requires Anchored(s, v) && t == s.(handling := t.handling)
    ensures Anchored(t, v)
  {
  }

  lemma LiteStuck(s: State, isLite: bool, t: State, v: ValidPair)
    requires LiteSet(s, isLite, t) && Anchored(s, v) && s.controlling
    ensures Anchored(t, v) && t.phase == s.phase
  {
  }

  lemma ConnectPhase(s: State, ready: bool, t: State)
    requires ConnectStarted(s, ready, t) && !s.phase.Connected?
    ensures !t.phase.Connected? && t.controlling == s.controlling && t.lite == s.lite
  {
    hide Tops, Started, SortedBy;
  }

  lemma {:induction false} StuckForEver(config: Config, events: seq<Event>, trace: seq<State>, i: nat, j: nat, v: ValidPair)
    requires GoodRun(config, events, trace) && config.components == 1 && i <= j < |trace|
    requires forall k :: i <= k <= j ==> trace[k].controlling && !trace[k].lite
    requires Stuck(trace[i], v)
    ensures Stuck(trace[j], v)
    decreases j - i
  {
    hide Inv, Effect, Allowed, Stuck;
    if i < j {
      StepStuck(config, events[i], trace[i], trace[i + 1], v);
      StuckForEver(config, events, trace, i + 1, j, v);
    }
  }

  /** Nothing in flight asks for a nomination, or is a check of the pair the nominated entry came from. */
  ghost predicate Quiet(s: State)
  {
    forall v, k :: v in s.validList && NominatedFor(s.pairs, v, 1) && k in s.checks ==>
      Harmless(v, k.task) && !k.useCandidate
  }

  lemma RestartSticks(config: Config, s: State, v: ValidPair)
    requires Inv(config, s) && v in s.validList && NominatedFor(s.pairs, v, 1) && Quiet(s)
    ensures Anchored(AfterRestart(s), v)
  {
    var t := AfterRestart(s);
    var i :| 0 <= i < |s.validList| && s.validList[i] == v;
    ValidEntryFacts(config, s, i);
    forall k | k in t.checks ensures Harmless(v, k.task) && !k.useCandidate {
      var j :| 0 <= j < |t.checks| && t.checks[j] == k;
      assert s.checks[j] in s.checks;
    }
  }

  /** Once restarted, an agent with one component and a full peer does not connect again as long as it
      is controlling: its old nominated pair keeps it from asking for a new one. */
  lemma RestartNeverReconnects(config: Config, events: seq<Event>, trace: seq<State>, i: nat, j: nat)
    requires GoodRun(config, events, trace) && config.components == 1 && i < j < |trace|
    requires events[i].RestartCalled? && trace[i].phase.Connected?
    requires HasNominated(trace[i].pairs, trace[i].validList, 1) && Quiet(trace[i])
    requires forall k :: i < k <= j ==> trace[k].controlling && !trace[k].lite
    ensures !trace[j].phase.Connected?
    ensures !trace[j].phase.Closed? ==> forall q :: q in trace[j].queue ==> !q.useCandidate
  {
    hide Inv, Quiet, NominatedFor;
    var s := trace[i];
    assert Inv(config, s) && Effect(config, events[i], s, trace[i + 1]);
    var v :| v in s.validList && NominatedFor(s.pairs, v, 1);
    RestartSticks(config, s, v);
    StuckForEver(config, events, trace, i + 1, j, v);
    hide Effect, Allowed;
  }

  /** The one way to lose a nominated entry other than closing: the check of the pair it came from fails. */
  lemma FailureForgets(s: State, id: nat, c: nat)
    requires id in s.pairs
    ensures HasNominated(Failing(s, id).pairs, Failing(s, id).validList, c)
            <==> exists v :: v in s.validList && NominatedFor(s.pairs, v, c) && v.source != Some(id)
  {
    var t := Failing(s, id);
    forall v ensures NominatedFor(t.pairs, v, c) <==> NominatedFor(s.pairs, v, c) {
    }
    hide NominatedFor;
    assert forall v :: v in t.validList <==> v in s.validList && NotFrom(id)(v);
  }
}
