/** The agent as a state machine. Each method is one stretch of code between two suspensions. */
module Agent {
  import opened Wire
  import opened Order
  import opened Lists
  import opened Candidates
  import opened AgentState
  import opened AgentNomination
  import opened AgentSteps

  class Agent {
    const config: Config
    var pairs: Pairs
    var nextId: nat
    var checkList: seq<nat>
    var queue: seq<CheckTask>
    var validList: seq<ValidPair>
    var checks: seq<Check>
    var handling: seq<Handling>
    var locals: seq<Candidate>
    var remotes: seq<Candidate>
    var controlling: bool
    var tie: u64
    var generation: u32
    var phase: Phase
    var lite: bool

    function Now(): State
      reads this
    {
      State(pairs, nextId, checkList, queue, validList, checks, handling, locals, remotes,
            controlling, tie, generation, phase, lite)
    }

    ghost predicate Valid()
      reads this
    {
      Inv(config, Now())
    }

    constructor (config: Config, controlling: bool, tie: u64)
      requires config.components < 255
      ensures Valid() && this.config == config
      ensures Now() == State(map[], 0, [], [], [], [], [], [], [], controlling, tie, 0, Init, false)
    {
      this.config := config;
      pairs, nextId, checkList, queue, validList, checks, handling := map[], 0, [], [], [], [], [];
      locals, remotes := [], [];
      this.controlling, this.tie, generation, phase, lite := controlling, tie, 0, Init, false;
    }

    // ---- the checklist ----

    /** `sort_check_list`. */
    method SortCheckList()
      modifies `checkList
      ensures multiset(checkList) == multiset(old(checkList))
      ensures forall id :: id in checkList <==> id in old(checkList)
      ensures SortedBy(checkList, Higher(pairs))
    {
      HigherIsOrder(pairs);
      checkList := Sort(checkList, Higher(pairs));
      PermutationMembers(old(checkList), checkList);
    }

    /** The first listed pair with these ends, or the length of the list; `live` looks at waiting
        and frozen pairs only. */
    method FindPair(local: Endpoint, remote: Endpoint, transport: Text, live: bool) returns (i: nat)
      requires InStore(pairs, checkList)
      ensures i <= |checkList|
      ensures i < |checkList| ==>
                Ends(pairs[checkList[i]]) == (local, remote, Fold(transport)) && (live ==> Live(pairs[checkList[i]]))
      ensures i == |checkList| ==>
                forall id :: id in checkList && (live ==> Live(pairs[id])) ==>
                  Ends(pairs[id]) != (local, remote, Fold(transport))
    {
      var m := pairs;
      var ends := (local, remote, Fold(transport));
      var hit := (id: nat) => id in m && (live ==> Live(m[id])) && Ends(m[id]) == ends;
      i := FindFirst(checkList, hit);
      if i < |checkList| {
        assert hit(checkList[i]);
      } else {
        forall id | id in checkList && (live ==> Live(pairs[id])) ensures Ends(pairs[id]) != ends {
          var j :| 0 <= j < |checkList| && checkList[j] == id;
          assert !hit(checkList[j]);
        }
      }
    }

    /** `init_pair_state`. */
    method InitialState(p: Pair) returns (state: PairState)
      requires InStore(pairs, checkList)
      ensures state == NewState(config.trickle, pairs, checkList, p)
    {
      if !config.trickle { return Frozen; }
      var m, f, c := pairs, Foundation(p), Component(p);
      var above := (id: nat) =>
        id in m && Foundation(m[id]) == f
        && !(Component(m[id]) > c || (Component(m[id]) == c && m[id].priority <= p.priority));
      var i := FindFirst(checkList, above);
      if i == |checkList| {
        forall id | id in checkList ensures !above(id) {
          var j :| 0 <= j < |checkList| && checkList[j] == id;
          assert !above(checkList[j]);
        }
        return Waiting;
      }
      assert above(checkList[i]);
      var worked := (id: nat) => id in m && Foundation(m[id]) == f && m[id].state.Succeeded?;
      var k := FindFirst(checkList, worked);
      if k < |checkList| {
        assert worked(checkList[k]);
        return Waiting;
      }
      forall id | id in checkList ensures !worked(id) {
        var j :| 0 <= j < |checkList| && checkList[j] == id;
        assert !worked(checkList[j]);
      }
      return Frozen;
    }

    /** Pair two candidates in place of the redundant pair at `k`, if there is one. */
    method Replace(k: nat, local: Candidate, remote: Candidate, priority: u64)
      requires InStore(pairs, checkList) && nextId !in pairs
      modifies `pairs, `nextId, `checkList
      ensures nextId == old(nextId) + 1
      ensures checkList == Without(old(checkList), k) + [old(nextId)]
      ensures pairs == old(pairs)[old(nextId) := NewPair(config.trickle, old(pairs), Without(old(checkList), k),
                                                         local, remote, priority)]
    {
      MembersOfWithout(checkList, k);
      checkList := Without(checkList, k);
      var state := InitialState(Pair(local, remote, priority, Frozen));
      pairs := pairs[nextId := Pair(local, remote, priority, state)];
      checkList := checkList + [nextId];
      nextId := nextId + 1;
    }

    /** Pair two candidates unless the redundant pair at `k` already does as well. */
    method FormPair(k: nat, local: Candidate, remote: Candidate, ghost known: seq<Candidate>)
      requires Core(Now().(remotes := known)) && CanPair(local, remote) && remote in known
      requires k <= |checkList|
      requires k < |checkList| ==>
                 && checkList[k] in pairs && Live(pairs[checkList[k]])
                 && Ends(pairs[checkList[k]]) == (local.endpoint, remote.endpoint, Fold(local.transportType))
      requires k == |checkList| ==>
                 forall id :: id in checkList && id in pairs && Live(pairs[id]) ==>
                   Ends(pairs[id]) != (local.endpoint, remote.endpoint, Fold(local.transportType))
      modifies `pairs, `nextId, `checkList
      ensures Core(Now().(remotes := known))
      ensures Grown(old(pairs), old(checkList), pairs, checkList)
      ensures Paired(pairs, checkList, local, remote, controlling)
      ensures forall id :: id in checkList && id !in old(checkList) ==>
                id in pairs && pairs[id].local == local && pairs[id].remote == remote
    {
      hide Core, Grown, Covered, PairPriority, CanPair, Live, NewState;
      ghost var was := Now().(remotes := known);
      CoreRefs(was);
      var priority := PairPriority(local.priority, remote.priority, controlling);
      if k == |checkList| || pairs[checkList[k]].priority < priority {
        ghost var p := NewPair(config.trickle, pairs, Without(checkList, k), local, remote, priority);
        KnownWhenPaired(known, p);
        ReplaceKeeps(was, k, p);
        MembersOfWithout(checkList, k);
        Replace(k, local, remote, priority);
      } else {
        CoveredBy(pairs, checkList, checkList[k], priority);
        GrownSelf(pairs, checkList);
      }
    }

    /** `pair_local_candidate`. Every remote candidate it can pair with is covered afterwards, no
        pair is lost unless one with the same ends and at least its priority replaces it, and a
        pruned checklist stays pruned. */
    method PairLocal(c: Candidate)
      requires Valid() && c.kind != Srflx
      modifies `pairs, `nextId, `checkList
      ensures Valid()
      ensures Grown(old(pairs), old(checkList), pairs, checkList)
      ensures forall r :: r in remotes ==> Paired(pairs, checkList, c, r, controlling)
      ensures forall id :: id in checkList && id !in old(checkList) ==>
                id in pairs && pairs[id].local == c && pairs[id].remote in remotes && CanPair(c, pairs[id].remote)
    {
      hide Core, Grown, Paired, CanPair, Live, Ends, SortedBy;
      GrownSelf(pairs, checkList);
      for i := 0 to |remotes|
        invariant Core(Now())
        invariant Grown(old(pairs), old(checkList), pairs, checkList)
        invariant forall j :: 0 <= j < i ==> Paired(pairs, checkList, c, remotes[j], controlling)
        invariant forall id :: id in checkList && id !in old(checkList) ==>
                    id in pairs && pairs[id].local == c && pairs[id].remote in remotes && CanPair(c, pairs[id].remote)
      {
        var r := remotes[i];
        if CanPair(c, r) {
          ghost var was, wasList := pairs, checkList;
          CoreRefs(Now());
          var k := FindPair(c.endpoint, r.endpoint, c.transportType, true);
          FormPair(k, c, r, remotes);
          GrownTransitive(old(pairs), old(checkList), was, wasList, pairs, checkList);
          forall j | 0 <= j < i ensures Paired(pairs, checkList, c, remotes[j], controlling) {
            PairedGrown(was, wasList, pairs, checkList, c, remotes[j], controlling);
          }
          GrownStore(was, wasList, pairs, checkList);
        } else {
          NotPaired(pairs, checkList, c, r, controlling);
        }
      }
      if config.trickle {
        ghost var was := Now();
        SortCheckList();
        SortedKeeps(config, was, checkList);
        GrownSorted(pairs, was.checkList, checkList);
        GrownTransitive(old(pairs), old(checkList), pairs, was.checkList, pairs, checkList);
        forall j | 0 <= j < |remotes| ensures Paired(pairs, checkList, c, remotes[j], controlling) {
          PairedGrown(pairs, was.checkList, pairs, checkList, c, remotes[j], controlling);
        }
      }
    }

    /** One turn of the loop below, which began in the state `first`. The branch for a redundant
        peer-reflexive pair is dead: no pair listed before the loop can lead to an unknown address,
        and the pairs the loop has formed lead to a signalled candidate. */
    method FormRemote(l: Candidate, c: Candidate, ghost first: State)
      requires Core(first) && Unknown(first.remotes, c) && c.kind != Prflx && CanPair(l, c)
      requires Core(Now().(remotes := first.remotes + [c]))
      requires Grown(first.pairs, first.checkList, pairs, checkList)
      requires forall id :: id in checkList && id !in first.checkList ==> id in pairs && pairs[id].remote == c
      modifies `pairs, `nextId, `checkList
      ensures Core(Now().(remotes := first.remotes + [c]))
      ensures Grown(old(pairs), old(checkList), pairs, checkList)
      ensures Paired(pairs, checkList, l, c, controlling)
      ensures forall id :: id in checkList && id !in old(checkList) ==>
                id in pairs && pairs[id].local == l && pairs[id].remote == c
    {
      hide Core, Grown, Paired, CanPair, Live, SortedBy, Fold;
      ghost var known := first.remotes + [c];
      CoreRefs(Now().(remotes := known));
      SameTransport(l, c);
      var k := FindPair(l.endpoint, c.endpoint, c.transportType, true);
      if k < |checkList| && pairs[checkList[k]].remote.kind.Prflx? {
        GrownStore(first.pairs, first.checkList, pairs, checkList);
        CoreRefs(first);
        NoPairYet(first, c, checkList[k]);
        assert false;
      } else {
        assert known[|known| - 1] == c;
        FormPair(k, l, c, known);
      }
    }

    /** `pair_remote_candidate`, for a candidate about to join the known ones. */
    method PairRemote(c: Candidate)
      requires Valid() && Unknown(remotes, c) && c.kind != Prflx
      modifies `pairs, `nextId, `checkList
      ensures Inv(config, Now().(remotes := remotes + [c]))
      ensures Grown(old(pairs), old(checkList), pairs, checkList)
      ensures forall l :: l in locals ==> Paired(pairs, checkList, l, c, controlling)
      ensures forall id :: id in checkList && id !in old(checkList) ==>
                id in pairs && pairs[id].remote == c && pairs[id].local in locals && CanPair(pairs[id].local, c)
    {
      hide Core, Grown, Paired, CanPair, SortedBy, Unknown;
      ghost var first := Now();
      MoreRemotes(first, [c]);
      GrownSelf(pairs, checkList);
      for i := 0 to |locals|
        invariant Core(Now().(remotes := first.remotes + [c]))
        invariant Grown(first.pairs, first.checkList, pairs, checkList)
        invariant forall j :: 0 <= j < i ==> Paired(pairs, checkList, locals[j], c, controlling)
        invariant forall id :: id in checkList && id !in first.checkList ==>
                    id in pairs && pairs[id].remote == c && pairs[id].local in locals && CanPair(pairs[id].local, c)
      {
        var l := locals[i];
        if CanPair(l, c) {
          ghost var was, wasList := pairs, checkList;
          FormRemote(l, c, first);
          GrownTransitive(first.pairs, first.checkList, was, wasList, pairs, checkList);
          forall j | 0 <= j < i ensures Paired(pairs, checkList, locals[j], c, controlling) {
            PairedGrown(was, wasList, pairs, checkList, locals[j], c, controlling);
          }
          GrownStore(was, wasList, pairs, checkList);
        } else {
          NotPaired(pairs, checkList, l, c, controlling);
        }
      }
      if config.trickle {
        ghost var was := Now().(remotes := first.remotes + [c]);
        SortCheckList();
        SortedKeeps(config, was, checkList);
        GrownSorted(pairs, was.checkList, checkList);
        GrownTransitive(first.pairs, first.checkList, pairs, was.checkList, pairs, checkList);
        forall j | 0 <= j < |locals| ensures Paired(pairs, checkList, locals[j], c, controlling) {
          PairedGrown(pairs, was.checkList, pairs, checkList, locals[j], c, controlling);
        }
      }
    }

    /** `add_remote_candidate` once the address is known: false exactly for a new candidate of a kind
        that is never signalled. */
    method AdmitRemote(c: Candidate) returns (ok: bool)
      requires Valid()
      modifies `pairs, `nextId, `checkList, `remotes
      ensures Valid()
      ensures RemoteAdmitted(old(Now()), c, Now())
      ensures ok <==> !Unknown(old(remotes), c) || c.kind != Prflx
    {
      hide Core, Grown, Paired, SortedBy, Fold;
      var d := Signalled(c);
      var same := (r: Candidate) => r.endpoint == d.endpoint && SameIgnoringCase(r.transportType, d.transportType);
      var i := FindFirst(remotes, same);
      if i < |remotes| {
        assert same(remotes[i]) && remotes[i] in remotes;
        return true;
      }
      forall r | r in remotes ensures !same(r) {
        var j :| 0 <= j < |remotes| && remotes[j] == r;
        assert !same(remotes[j]);
      }
      if d.kind.Prflx? { return false; }
      PairRemote(d);
      remotes := remotes + [d];
      assert remotes[|remotes| - 1] == d;
      return true;
    }

    /** `add_remote_candidate` for a candidate whose address is known at once. */
    method AddRemote(c: Candidate, ended: bool) returns (ok: bool)
      requires Valid()
      modifies `pairs, `nextId, `checkList, `remotes
      ensures Valid()
      ensures RemoteAdded(old(Now()), c, ended, Now())
      ensures ok <==> !Listens(old(Now()), ended) || !Unknown(old(remotes), c) || c.kind != Prflx
    {
      hide Inv, RemoteAdmitted, Unknown;
      if phase.Closed? || phase.Connected? || ended { return true; }
      ok := AdmitRemote(c);
    }

    // ---- roles ----

    method Reprioritise(control: bool)
      requires InStore(pairs, checkList)
      modifies `pairs
      ensures pairs == Reprioritised(old(pairs), checkList, control)
    {
      hide Formula;
      ghost var was := pairs;
      for i := 0 to |checkList|
        invariant pairs.Keys == was.Keys
        invariant forall id :: id in pairs ==>
                    pairs[id] == if id in checkList[..i] then was[id].(priority := Formula(was[id], control)) else was[id]
      {
        var id := checkList[i];
        SameFormula(was[id], pairs[id], control);
        pairs := pairs[id := pairs[id].(priority := Formula(pairs[id], control))];
        assert checkList[..i + 1] == checkList[..i] + [id];
      }
      assert checkList[..|checkList|] == checkList;
    }

    /** `switch_role`: every listed pair is given its priority under the new role. */
    method SwitchRole(control: bool)
      requires Valid()
      modifies `controlling, `pairs, `checkList
      ensures Valid()
      ensures RoleSwitched(old(Now()), control, Now())
    {
      hide Core, SortedBy, Reprioritised;
      if lite && !control { return; }
      CoreRefs(Now());
      ReprioritisedKeeps(Now(), control);
      controlling := control;
      Reprioritise(control);
      ghost var was := Now();
      SortCheckList();
      SortedKeeps(config, was, checkList);
    }

    /** `set_remote_is_lite`. */
    method SetRemoteIsLite(isLite: bool)
      requires Valid()
      modifies `lite, `controlling, `pairs, `checkList
      ensures Valid() && LiteSet(old(Now()), isLite, Now())
    {
      hide Core, SortedBy;
      LiteKeeps(config, Now(), isLite);
      lite := isLite;
      if isLite && !controlling { SwitchRole(true); }
    }

    // ---- the scheduler ----

    method AnyWaiting() returns (some: bool)
      requires InStore(pairs, checkList)
      ensures some <==> SomeWaiting(pairs, checkList)
    {
      var m := pairs;
      var waiting := (id: nat) => id in m && m[id].state.Waiting?;
      var i := FindFirst(checkList, waiting);
      some := i < |checkList|;
      if some {
        assert waiting(checkList[i]) && checkList[i] in checkList;
      } else {
        forall id | id in checkList ensures !waiting(id) {
          var j :| 0 <= j < |checkList| && checkList[j] == id;
          assert !waiting(checkList[j]);
        }
      }
    }

    method IsBusy(foundation: Text) returns (busy: bool)
      requires InStore(pairs, checkList)
      ensures busy <==> Busy(pairs, checkList, foundation)
    {
      var m := pairs;
      var runs := (id: nat) => id in m && m[id].state.InProgress? && Foundation(m[id]) == foundation;
      var i := FindFirst(checkList, runs);
      busy := i < |checkList|;
      if busy {
        assert runs(checkList[i]) && checkList[i] in checkList;
      } else {
        forall id | id in checkList ensures !runs(id) {
          var j :| 0 <= j < |checkList| && checkList[j] == id;
          assert !runs(checkList[j]);
        }
      }
    }

    /** Let every frozen pair go whose foundation has no check under way. */
    method Thaw()
      requires InStore(pairs, checkList)
      modifies `pairs
      ensures Thawed(old(pairs), checkList, checkList, pairs)
    {
      hide Foundation, Busy;
      ghost var was := pairs;
      for i := 0 to |checkList|
        invariant Thawed(was, checkList, checkList[..i], pairs)
      {
        var id := checkList[i];
        ThawedLooksTheSame(was, checkList, checkList[..i], pairs, id);
        if pairs[id].state.Frozen? {
          var busy := IsBusy(Foundation(pairs[id]));
          if !busy { pairs := pairs[id := pairs[id].(state := Waiting)]; }
        }
        assert checkList[..i + 1] == checkList[..i] + [id];
      }
      assert checkList[..|checkList|] == checkList;
    }

    /** The best waiting pair. */
    method BestWaiting() returns (task: Option<CheckTask>)
      requires InStore(pairs, checkList)
      ensures Picked(pairs, checkList, task)
    {
      task := None;
      for i := 0 to |checkList|
        invariant Picked(pairs, checkList[..i], task)
      {
        var id := checkList[i];
        if pairs[id].state.Waiting? && (task.None? || Better(pairs[id], pairs[task.value.pair])) {
          task := Some(CheckTask(id, false));
        }
        assert checkList[..i + 1] == checkList[..i] + [id];
      }
      assert checkList[..|checkList|] == checkList;
    }

    /** `pick_next_pair`: a queued check first, else a waiting pair that no other betters; nothing
        exactly when the checklist is empty or stalled. */
    method PickNextPair() returns (task: Option<CheckTask>)
      requires Valid()
      modifies `pairs, `queue
      ensures Valid()
      ensures NextPicked(old(Now()), task, Now())
      ensures task.Some? ==> task.value.pair in pairs
    {
      hide Core, SortedBy, SomeWaiting, Stalled, Thaws;
      CoreRefs(Now());
      if checkList == [] { return None; }
      if queue != [] {
        task := Some(queue[0]);
        QueueRefs(config, Now());
        queue := queue[1..];
        return;
      }
      ghost var was := Now();
      var some := AnyWaiting();
      if !some {
        Thaw();
        ThawedStatesOnly(was.pairs, checkList, pairs);
      }
      StatesOnlyKeeps(config, was, pairs);
      task := BestWaiting();
      PickedNothing(pairs, checkList, task);
      EmptyMeansStalled(was.pairs, checkList, pairs);
    }

    /** `unfreeze_initial`: the topmost pair of each foundation starts waiting, and no other changes. */
    method UnfreezeInitial() returns (tops: seq<nat>)
      requires Valid()
      modifies `pairs
      ensures Valid()
      ensures Tops(old(pairs), checkList, tops)
      ensures Started(old(pairs), tops, pairs)
    {
      hide Core, SortedBy, Foundation, Before, Tops, SeenIs, Started;
      CoreRefs(Now());
      ghost var was := Now();
      BeforeIsOrder(pairs);
      var order := Sort(checkList, Before(pairs));
      PermutationMembers(checkList, order);
      var seen: set<Text> := {};
      tops := [];
      TopsStart(pairs);
      assert order[..0] == [];
      for i := 0 to |order|
        invariant Started(was.pairs, tops, pairs)
        invariant Tops(was.pairs, order[..i], tops)
        invariant SeenIs(was.pairs, tops, seen)
      {
        var id := order[i];
        StartedLooksTheSame(was.pairs, tops, pairs, id);
        if Foundation(pairs[id]) !in seen {
          TopsAppend(was.pairs, order, i, tops, seen);
          StartedAppend(was.pairs, tops, pairs, id);
          seen := seen + {Foundation(pairs[id])};
          pairs := pairs[id := pairs[id].(state := Waiting)];
          tops := tops + [id];
        } else {
          TopsSkip(was.pairs, order, i, tops, seen);
        }
      }
      assert order[..|order|] == order;
      TopsMembers(was.pairs, order, checkList, tops);
      StartedStatesOnly(was.pairs, tops, pairs);
      StatesOnlyKeeps(config, was, pairs);
    }

    // ---- nomination ----

    method CanNominate(i: nat) returns (ok: bool)
      requires i < |validList|
      ensures ok <==> Nominable(Now(), i)
    {
      hide ComponentOf;
      if phase.Closed? || phase.Connected? || validList[i].nominated { return false; }
      var m, c, g := pairs, ComponentOf(pairs, validList[i].pair), generation;
      var rival := (v: ValidPair) => NominatedFor(m, v, c) && v.generation == g;
      var r := FindFirst(validList, rival);
      if r < |validList| {
        assert rival(validList[r]) && validList[r] in validList;
        return false;
      }
      forall v | v in validList ensures !rival(v) {
        var j :| 0 <= j < |validList| && validList[j] == v;
        assert !rival(validList[j]);
      }
      return true;
    }

    method FindEntry(id: nat) returns (i: nat)
      requires exists v :: v in validList && v.pair == id
      ensures i < |validList| && validList[i].pair == id
    {
      var hit := (v: ValidPair) => v.pair == id;
      i := FindFirst(validList, hit);
      ghost var v :| v in validList && v.pair == id;
      ghost var at :| 0 <= at < |validList| && validList[at] == v;
      assert hit(validList[at]);
    }

    /** Mark an entry and drop what its nomination supersedes. */
    method Nominate(i: nat)
      requires Valid() && i < |validList| && Nominable(Now(), i)
      modifies `validList, `checkList, `queue
      ensures Inv(config, Now()) && Inv(config, Now().(phase := Connected))
      ensures HasNominated(pairs, validList, ComponentOf(pairs, old(validList)[i].pair))
      ensures validList == AfterNomination(pairs, old(validList), generation, i)
      ensures checkList == Filter(old(checkList), OtherPairs(pairs, old(validList)[i].pair))
      ensures queue == Filter(old(queue), OtherTasks(pairs, old(validList)[i].pair))
    {
      hide Core, SortedBy, ComponentOf, EntryOk, Apart, OtherPairs, OtherTasks, Survives, Nominable, HasNominated, ValidOk;
      ghost var was := Now();
      var id := validList[i].pair;
      CoreValid(was);
      NominationKeeps(was, i);
      validList := Filter(Mark(validList, i), Survives(pairs, id, generation));
      ShrinkKeeps(config, was, validList, OtherPairs(pairs, id), OtherTasks(pairs, id), phase);
      ShrinkKeeps(config, was, validList, OtherPairs(pairs, id), OtherTasks(pairs, id), Connected);
      checkList := Filter(checkList, OtherPairs(pairs, id));
      queue := Filter(queue, OtherTasks(pairs, id));
    }

    /** `set_nominated`, for an entry of the valid list. The step that connects leaves exactly one
        nominated entry for every component. */
    method SetNominated(id: nat) returns (done: bool, i: nat)
      requires Valid() && exists v :: v in validList && v.pair == id
      modifies `validList, `checkList, `queue, `phase
      ensures Valid()
      ensures i < |old(validList)| && old(validList)[i].pair == id && (done <==> Nominable(old(Now()), i))
      ensures Now() == if done then Nominated(config, old(Now()), i) else old(Now())
      ensures phase.Connected? && !old(phase.Connected?) ==> Connects(config, Now())
    {
      hide Core, SortedBy, AfterNomination, OtherPairs, OtherTasks, Nominable, HasNominated, ExactlyOne, AllNominated,
           ComponentOf;
      i := FindEntry(id);
      done := CanNominate(i);
      if !done { return; }
      NotOver(Now(), i);
      Nominate(i);
      var all := OthersNominated(ComponentOf(pairs, id));
      if all {
        phase := Connected;
        AllExactlyOne(config, Now());
      }
    }

    /** Whether every component has a nominated pair, once `c` is known to. */
    method OthersNominated(c: byte) returns (all: bool)
      requires HasNominated(pairs, validList, c) && config.components < 255
      ensures all <==> AllNominated(pairs, validList, config.components)
    {
      hide ComponentOf;
      for k: nat := 1 to config.components + 1
        invariant forall x :: 1 <= x < k ==> HasNominated(pairs, validList, x)
      {
        if k != c {
          var found := AnyNominated(k);
          if !found { return false; }
        }
      }
      return true;
    }

    method AnyNominated(c: nat) returns (found: bool)
      ensures found <==> HasNominated(pairs, validList, c)
    {
      hide ComponentOf;
      var m := pairs;
      var hit := (v: ValidPair) => NominatedFor(m, v, c);
      var i := FindFirst(validList, hit);
      found := i < |validList|;
      if found {
        assert hit(validList[i]) && validList[i] in validList;
      } else {
        forall v | v in validList ensures !hit(v) {
          var j :| 0 <= j < |validList| && validList[j] == v;
          assert !hit(validList[j]);
        }
      }
    }

    /** The first entry of a component, or the length of the list. */
    method FirstOf(c: nat) returns (i: nat)
      ensures i <= |validList| && (i < |validList| ==> ComponentOf(pairs, validList[i].pair) == c)
      ensures forall j :: 0 <= j < i ==> ComponentOf(pairs, validList[j].pair) != c
      ensures i < |validList| <==> HasValid(pairs, validList, c)
    {
      hide ComponentOf;
      var m := pairs;
      var hit := (v: ValidPair) => ComponentOf(m, v.pair) == c;
      i := FindFirst(validList, hit);
      if i < |validList| {
        assert hit(validList[i]) && validList[i] in validList;
      } else {
        forall v | v in validList ensures !hit(v) {
          var j :| 0 <= j < |validList| && validList[j] == v;
          assert !hit(validList[j]);
        }
      }
    }

    /** Ask for a nomination in component `c` unless it has one or has nothing to nominate. */
    method AskFor(c: nat, ghost was: Pairs, ghost asked: seq<CheckTask>) returns (ghost now: seq<CheckTask>)
      requires Valid() && 1 <= c && SortedBy(validList, HigherValid(was)) && ValidOk(was, validList, generation)
      requires AsksFor(was, validList, Wanted(was, validList, c - 1), asked) && Woken(was, asked, pairs)
      modifies `pairs, `queue
      ensures Valid() && asked <= now && queue == old(queue) + now[|asked|..]
      ensures AsksFor(was, validList, Wanted(was, validList, c), now) && Woken(was, now, pairs)
    {
      hide Core, SortedBy, ValidOk, HasValid, HasNominated, Asks, Woken, HigherValid, ComponentOf, NominatedFor;
      SameComponents(was, asked, pairs, validList, c);
      now := asked;
      var nominated := AnyNominated(c);
      if nominated { return; }
      var i := FirstOf(c);
      if i == |validList| { return; }
      FirstAsks(was, validList, generation, c, i);
      var source := validList[i].source.value;
      AskKeeps(config, Now(), source, was, asked);
      pairs := pairs[source := pairs[source].(state := Waiting)];
      queue := queue + [CheckTask(source, true)];
      now := asked + [CheckTask(source, true)];
    }

    /** `default_nominate`: one use-candidate check per component that has a valid pair and no
        nominated one, on the source of its best valid pair. */
    method DefaultNominate()
      requires Valid()
      modifies `pairs, `queue, `validList
      ensures Valid()
      ensures DefaultNominated(config, old(Now()), Now())
    {
      hide Core, SortedBy, ValidOk, HasValid, HasNominated, AsksFor, Wanted, Woken, HigherValid;
      if phase.Closed? || phase.Connected? || !controlling { return; }
      ghost var was := Now();
      HigherIsOrder(pairs);
      validList := Sort(validList, HigherValid(pairs));
      SortValidKeeps(config, was, validList);
      CoreValid(Now());
      ghost var added := [];
      AsksForNone(pairs, validList);
      for c: nat := 1 to config.components + 1
        invariant Valid()
        invariant Now() == was.(pairs := pairs, queue := was.queue + added, validList := validList)
        invariant multiset(validList) == multiset(was.validList) && SortedBy(validList, HigherValid(was.pairs))
        invariant ValidOk(was.pairs, validList, generation)
        invariant AsksFor(was.pairs, validList, Wanted(was.pairs, validList, c - 1), added)
        invariant Woken(was.pairs, added, pairs)
      {
        ghost var more := AskFor(c, was.pairs, added);
        assert was.queue + added + more[|added|..] == was.queue + more;
        added := more;
      }
      assert queue[|was.queue|..] == added && queue[..|was.queue|] == was.queue;
    }

    // ---- connectivity checks ----

    method Release(foundation: Text)
      requires InStore(pairs, checkList)
      modifies `pairs
      ensures Released(old(pairs), checkList, foundation, pairs)
    {
      hide Foundation, Released;
      ghost var was := pairs;
      NothingReleased(pairs, foundation);
      assert checkList[..0] == [];
      for i := 0 to |checkList|
        invariant Released(was, checkList[..i], foundation, pairs)
      {
        var id := checkList[i];
        ReleasedOne(was, checkList[..i], foundation, pairs, id);
        assert checkList[..i + 1] == checkList[..i] + [id];
        if pairs[id].state.Frozen? && Foundation(pairs[id]) == foundation {
          pairs := pairs[id := pairs[id].(state := Waiting)];
        }
      }
      assert checkList[..|checkList|] == checkList;
    }

    /** `check_complete`. */
    method CheckComplete(id: nat)
      requires Valid() && id in pairs
      modifies `pairs, `queue, `validList
      ensures Valid()
      ensures Completed(config, old(Now()), id, Now())
    {
      hide Core, SortedBy, Foundation, Released, DefaultNominated;
      CoreRefs(Now());
      ghost var was := Now();
      if pairs[id].state.Succeeded? {
        Release(Foundation(pairs[id]));
        ReleasedStatesOnly(was.pairs, checkList, Foundation(was.pairs[id]), pairs);
        StatesOnlyKeeps(config, was, pairs);
        assert Now() == was.(pairs := pairs);
        DefaultNominate();
      } else if pairs[id].state.Failed? {
        DropSourceKeeps(config, was, id);
        validList := Filter(validList, NotFrom(id));
      }
    }

    method SetState(id: nat, state: PairState)
      requires Valid() && id in pairs
      modifies `pairs
      ensures Valid() && pairs == old(pairs)[id := old(pairs)[id].(state := state)]
      ensures StatesOnly(old(pairs), pairs)
    {
      hide Core, SortedBy;
      ghost var was := Now();
      pairs := pairs[id := pairs[id].(state := state)];
      StatesOnlyKeeps(config, was, pairs);
    }

    /** The local candidate that has this address, learned if need be; nothing when the base of a
        learned candidate cannot be told. */
    method LocalFor(id: nat, mapped: Endpoint, foundation: Text) returns (c: Option<Candidate>)
      requires Valid() && id in pairs
      modifies `locals
      ensures Valid()
      ensures c.Some? ==> LocalTaken(old(locals), pairs[id], mapped, foundation, c.value, locals)
      ensures c.None? ==> locals == old(locals) && pairs[id].local.kind != Host && pairs[id].local.related.None?
    {
      hide Core, SortedBy, CandidatePriority, Fold;
      var l := pairs[id].local;
      var same := (x: Candidate) => x.endpoint == mapped && SameIgnoringCase(x.transportType, l.transportType);
      var i := FindFirst(locals, same);
      if i < |locals| {
        assert same(locals[i]);
        return Some(locals[i]);
      }
      if l.kind != Host && l.related.None? { return None; }
      var learned := Reflected(pairs[id], mapped, foundation);
      ghost var was := Now();
      locals := locals + [learned];
      OtherFields(config, was, Now());
      assert locals[|locals| - 1] == learned;
      return Some(learned);
    }

    /** `construct_valid_pair`: whichever pair it returns joins the mapped address to the remote
        candidate that was checked. */
    method ConstructValidPair(id: nat, mapped: Endpoint, foundation: Text) returns (v: Option<nat>)
      requires Valid() && id in pairs
      modifies `pairs, `nextId, `locals
      ensures Valid()
      ensures Extends(old(pairs), pairs)
      ensures v.Some? ==>
                v.value in pairs && Ends(pairs[v.value]) == MappedEnds(old(pairs)[id], mapped)
                && Constructed(old(Now()), id, mapped, foundation, v.value, Now())
      ensures v.Some? && v.value !in old(pairs) ==> pairs[v.value].priority == Formula(pairs[v.value], controlling)
      ensures v.None? ==> Baseless(old(pairs)[id], mapped) && Now() == old(Now())
    {
      hide Core, SortedBy, CandidatePriority, Fold, PairPriority;
      var p := pairs[id];
      if mapped == p.local.endpoint { return Some(id); }
      CoreRefs(Now());
      var k := FindPair(mapped, p.remote.endpoint, p.local.transportType, false);
      if k < |checkList| { return Some(checkList[k]); }
      var l := LocalFor(id, mapped, foundation);
      if l.None? { return None; }
      ghost var was := Now();
      var q := Pair(l.value, p.remote, PairPriority(l.value.priority, p.remote.priority, controlling), Frozen);
      StoreKeeps(config, was, q);
      CoreRefs(was);
      pairs := pairs[nextId := q];
      v := Some(nextId);
      nextId := nextId + 1;
    }

    /** Enter a pair into the valid list unless an entry with its ends is there; the pair to nominate. */
    method Enter(v: nat, source: nat) returns (entry: nat)
      requires Valid() && v in pairs && source in pairs
      modifies `pairs, `validList
      ensures Valid() && StatesOnly(old(pairs), pairs)
      ensures Entered(old(Now()), v, source, entry, Now())
      ensures exists e :: e in validList && e.pair == entry
      ensures entry in pairs && Ends(pairs[entry]) == Ends(old(pairs)[v])
    {
      hide Core, SortedBy, Ends;
      StatesOnlySelf(pairs);
      var m, ends := pairs, Ends(pairs[v]);
      var hit := (e: ValidPair) => e.pair in m && Ends(m[e.pair]) == ends;
      var i := FindFirst(validList, hit);
      if i < |validList| {
        assert hit(validList[i]) && validList[i] in validList;
        return validList[i].pair;
      }
      forall e | e in validList ensures !hit(e) {
        var j :| 0 <= j < |validList| && validList[j] == e;
        assert !hit(validList[j]);
      }
      SetState(v, Succeeded);
      NoEntryYet(old(pairs), pairs, validList, v);
      EnterKeeps(config, Now(), v, source);
      ghost var was := validList;
      validList := validList + [ValidPair(v, Some(source), false, generation)];
      assert validList[|was|] in validList;
      SameEntry(old(pairs), pairs, v);
      entry := v;
    }

    /** The guard that runs when a check ends without success. */
    method Fail(id: nat)
      requires Valid() && id in pairs
      modifies `pairs, `queue, `validList
      ensures Valid()
      ensures pairs == old(pairs)[id := old(pairs)[id].(state := Failed)]
      ensures queue == old(queue) && validList == Filter(old(validList), NotFrom(id))
    {
      hide Core, SortedBy, NotFrom;
      SetState(id, Failed);
      CheckComplete(id);
    }

    /** Nominate an entry if the check asked for it. */
    method NominateIfAsked(entry: nat, asked: bool)
      requires Valid() && exists e :: e in validList && e.pair == entry
      modifies `validList, `checkList, `queue, `phase
      ensures Valid() && PhaseStep(config, old(Now()), Now())
      ensures entry in pairs && HasEntry(pairs, validList, Ends(pairs[entry]))
      ensures asked && !old(phase).Closed? && !old(phase).Connected? ==>
                HasNominated(pairs, validList, ComponentOf(pairs, entry))
      ensures forall source, g :: Listed(old(validList), entry, source, g) ==> Listed(validList, entry, source, g)
      ensures if asked then NominationTried(config, old(Now()), entry, Now()) else Now() == old(Now())
    {
      hide Core, SortedBy, Ends, ValidOk, Nominable, AfterNomination, AllNominated, ExactlyOne, HasNominated,
           HasEntry, ComponentOf, OtherPairs, OtherTasks, Listed;
      ghost var was := Now();
      CoreValid(was);
      EntryListed(was, entry);
      if !asked { return; }
      var done, i := SetNominated(entry);
      if done {
        NotOver(was, i);
        NominationKeepsEntry(was.pairs, was.validList, was.generation, i);
        NominationKeeps(was, i);
        forall source, g | Listed(was.validList, entry, source, g) ensures Listed(validList, entry, source, g) {
          NominationListed(was, i, source, g);
        }
      } else if !phase.Closed? && !phase.Connected? {
        NominatedAnyway(was, i);
      }
    }

    /** Construct and enter the valid pair of a successful check; nothing if its base cannot be told. */
    method Promote(id: nat, mapped: Endpoint, foundation: Text) returns (r: Option<nat>)
      requires Valid() && id in pairs
      modifies `pairs, `nextId, `locals, `validList
      ensures Valid()
      ensures r.None? ==> Baseless(old(pairs)[id], mapped) && Now() == old(Now())
      ensures r.Some? ==>
                && Promoted(old(Now()), id, mapped, foundation, r.value, Now())
                && id in pairs && pairs[id].state.Succeeded?
                && r.value in pairs && Ends(pairs[r.value]) == MappedEnds(old(pairs)[id], mapped)
                && (exists e :: e in validList && e.pair == r.value)
                && (NoEntry(old(pairs), old(validList), MappedEnds(old(pairs)[id], mapped)) ==>
                      Listed(validList, r.value, Some(id), generation))
    {
      hide Core, SortedBy, Ends, MappedEnds, NoEntry, Listed, ValidOk, StatesOnly, Extends, Constructed, Entered;
      ghost var was := Now();
      ghost var ends := MappedEnds(pairs[id], mapped);
      CoreValid(was);
      var v := ConstructValidPair(id, mapped, foundation);
      if v.None? { return None; }
      ghost var constructed := Now();
      ExtendsAt(was.pairs, pairs, id);
      NoEntryExtends(was, pairs, ends);
      ConstructedKeeps(was, id, mapped, foundation, v.value, constructed);
      var entry := Enter(v.value, id);
      ghost var entered := Now();
      EnteredLists(constructed, v.value, id, entry, entered);
      StatesOnlyHas(constructed.pairs, pairs, id);
      SetState(id, Succeeded);
      SameEntry(entered.pairs, pairs, entry);
      r := Some(entry);
    }

    /** A check whose request succeeded. */
    method Succeed(id: nat, useCandidate: bool, mapped: Endpoint, foundation: Text)
      requires Valid() && id in pairs
      modifies `pairs, `nextId, `locals, `validList, `checkList, `queue, `phase
      ensures Valid() && PhaseStep(config, old(Now()), Now())
      ensures Validates(config, old(Now()), id, useCandidate, mapped, foundation, Now())
      ensures Validated(old(Now()), id, useCandidate, mapped, Now())
    {
      hide Core, SortedBy, Ends, MappedEnds, Connects, HasEntry, HasNominated, ComponentOf, StatesOnly, Completed, NoEntry,
           NotFrom, Listed, Won, ValidOk, Promoted, NominationTried;
      ghost var was := Now();
      ghost var ends := MappedEnds(pairs[id], mapped);
      var r := Promote(id, mapped, foundation);
      if r.None? {
        Fail(id);
        return;
      }
      var entry := r.value;
      ghost var p := Now();
      NominateIfAsked(entry, useCandidate);
      ghost var s := Now();
      CheckComplete(id);
      CompletedSuccess(config, s, id, Now());
      CompletedWon(config, s, id, Now());
      StillThere(s.pairs, pairs, s.validList, validList, ends, ComponentOf(s.pairs, entry));
      if Listed(s.validList, entry, Some(id), generation) {
        StillListed(s.validList, validList, entry, Some(id), generation);
      }
      SameEntry(s.pairs, pairs, entry);
      if s.phase.Connected? && !was.phase.Connected? { StatesOnlyConnects(config, s, Now()); }
      assert Promoted(was, id, mapped, foundation, entry, p);
    }

    /** The start of `do_check`: the pair goes in progress and a request with the current role leaves. */
    method BeginCheck(task: CheckTask)
      requires Valid() && task.pair in pairs
      modifies `pairs, `checks
      ensures Valid()
      ensures Now() == Begun(old(Now()), task)
    {
      hide Core, SortedBy;
      SetState(task.pair, InProgress);
      ghost var was := Now();
      checks := checks + [Check(task, task.useCandidate || lite, controlling, 1, true)];
      MoreChecks(config, was, checks[|checks| - 1]);
    }

    /** A check that is over, whatever its outcome; its record is gone from `checks`. */
    method Finish(k: Check, outcome: Outcome)
      requires Valid() && k.task.pair in pairs
      modifies `pairs, `nextId, `locals, `validList, `checkList, `queue, `phase
      ensures Valid() && PhaseStep(config, old(Now()), Now())
      ensures Finished(config, old(Now()), k, outcome, Now())
    {
      hide Core, SortedBy, Connects, NotFrom, Ends, HasEntry, HasNominated, ComponentOf, StatesOnly, Completed, Fold;
      var id := k.task.pair;
      match outcome
      case Canceled =>
        var others := (o: Check) => o.task.pair == id && o.linked;
        var j := FindFirst(checks, others);
        IndexedOrNot(checks, id, j);
        if pairs[id].state.InProgress? && j == |checks| { SetState(id, Waiting); }
      case Success(mapped, foundation) => Succeed(id, k.useCandidate, mapped, foundation);
      case RoleConflict(_) =>
        if !lite && pairs[id].state.Succeeded? {
          ghost var s := Now();
          CheckComplete(id);
          CompletedSuccess(config, s, id, Now());
        } else {
          Fail(id);
        }
      case Failure => Fail(id);
    }

    /** A role conflict: the agent takes the role its request did not have and draws a new tie-breaker. */
    method Yield(k: Check, drawn: u64)
      requires Valid() && !lite
      modifies `controlling, `pairs, `checkList, `tie
      ensures Valid()
      ensures RoleSwitched(old(Now()), !k.controlling, Now().(tie := old(tie))) && tie == drawn
      ensures pairs.Keys == old(pairs).Keys
    {
      hide Core, SortedBy, Reprioritised;
      ReprioritisedKeys(pairs, checkList, !k.controlling);
      SwitchRole(!k.controlling);
      ghost var was := Now();
      tie := drawn;
      OtherFields(config, was, Now());
    }

    /** The rest of `do_check`, from the outcome of a request on. After a role conflict it asks again,
        ten times at most; any other outcome finishes it. */
    method EndCheck(i: nat, outcome: Outcome)
      requires Valid() && i < |checks|
      modifies this
      ensures Valid() && PhaseStep(config, old(Now()), Now())
      ensures old(checks)[i].task.pair in old(pairs)
      ensures CheckOver(config, old(Now()), i, outcome, Now())
    {
      hide Core, SortedBy, Connects, RoleSwitched, Finished;
      var k := checks[i];
      ghost var was := Now();
      CheckRefs(config, Now(), i);
      if outcome.RoleConflict? && !lite {
        Yield(k, outcome.drawn);
        CheckRefs(config, Now(), i);
        ghost var mid := Now().(tie := was.tie);
        assert RoleSwitched(was, !k.controlling, mid);
        if k.tries < 10 {
          SameChecks(config, Now(), i, Check(k.task, k.task.useCandidate, controlling, k.tries + 1, true));
          checks := checks[i := Check(k.task, k.task.useCandidate, controlling, k.tries + 1, true)];
          return;
        }
      }
      checks := Without(checks, i);
      ghost var s := Now();
      Finish(k, outcome);
      PhaseStepFrom(config, was, s, Now());
    }

    /** The first part of `do_connect`. */
    method Connect(ready: bool)
      requires Valid()
      modifies `pairs, `checkList, `phase
      ensures Valid()
      ensures ConnectStarted(old(Now()), ready, Now())
    {
      hide Core, SortedBy, Tops, Started;
      if phase.Connecting? || phase.Closed? || phase.Connected? || !ready { return; }
      ghost var was := Now();
      SortCheckList();
      SortedKeeps(config, was, checkList);
      ghost var sorted := Now();
      var tops := UnfreezeInitial();
      StartedStatesOnly(sorted.pairs, tops, pairs);
      StatesOnlySorted(sorted.pairs, pairs, checkList);
      ghost var started := Now();
      phase := Connecting;
      OtherFields(config, started, Now());
    }

    /** One turn of the loop of `do_connect`. */
    method Tick()
      requires Valid()
      modifies `pairs, `queue, `checks
      ensures Valid()
      ensures Ticked(config, old(Now()), Now())
    {
      hide Core, SortedBy, NextPicked;
      if !phase.Connecting? { return; }
      var task := PickNextPair();
      assert NextPicked(old(Now()), task, Now());
      if task.Some? && |checks| < config.maxPending { BeginCheck(task.value); }
    }

    // ---- requests ----

    /** `request_handler` and `do_handle_request` up to the reply. */
    method Receive(r: Binding) returns (reply: Reply)
      requires Valid()
      modifies `controlling, `pairs, `checkList, `handling
      ensures Valid()
      ensures RequestReceived(old(Now()), r, reply, Now())
    {
      hide Core, SortedBy, Reprioritised;
      if phase.Closed? || lite { return Ignored; }
      if controlling && r.controlling.Some? {
        if tie >= r.controlling.value { return Refused; }
        SwitchRole(false);
      } else if !controlling && r.controlled.Some? {
        if tie < r.controlled.value { return Refused; }
        SwitchRole(true);
      }
      ghost var was := Now();
      handling := handling + [Queued(r)];
      OtherFields(config, was, Now());
      return Accepted;
    }

    method Enqueue(id: nat, useCandidate: bool)
      requires Valid() && id in pairs
      modifies `pairs, `queue
      ensures Valid()
      ensures pairs == old(pairs)[id := old(pairs)[id].(state := Waiting)]
      ensures queue == old(queue) + [CheckTask(id, useCandidate)]
    {
      hide Core, SortedBy;
      SetState(id, Waiting);
      QueueKeeps(config, Now(), CheckTask(id, useCandidate));
      queue := queue + [CheckTask(id, useCandidate)];
    }

    /** The remote candidate a request came from, learned if need be. */
    method RemoteFor(local: Candidate, h: Handling, foundation: Text) returns (c: Candidate)
      requires Valid() && SameIgnoringCase(config.transport, local.transportType)
      modifies `remotes
      ensures Valid()
      ensures RemoteLearned(old(Now()), local, h, foundation, c, Now())
    {
      hide Core, SortedBy, Fold;
      var same := (x: Candidate) => x.endpoint == h.from && SameIgnoringCase(config.transport, x.transportType);
      var i := FindFirst(remotes, same);
      if i < |remotes| {
        assert same(remotes[i]);
        return remotes[i];
      }
      c := Learned(local, h, foundation);
      RemotesKeep(config, Now(), [c]);
      remotes := remotes + [c];
      assert remotes[|remotes| - 1] == c;
    }

    /** List a new pair and sort. */
    method ListNew(p: Pair)
      requires Valid() && p.priority == Formula(p, controlling) && RemoteKnown(remotes, p)
      modifies `pairs, `nextId, `checkList
      ensures Valid()
      ensures pairs == old(pairs)[old(nextId) := p] && nextId == old(nextId) + 1
      ensures multiset(checkList) == multiset(old(checkList) + [old(nextId)]) && SortedBy(checkList, Higher(pairs))
    {
      hide Core, Formula, RemoteKnown, SortedBy, Higher;
      NewPairKeeps(Now(), p);
      pairs := pairs[nextId := p];
      checkList := checkList + [nextId];
      nextId := nextId + 1;
      ghost var unsorted := Now();
      SortCheckList();
      SortedKeeps(config, unsorted, checkList);
    }

    /** A pair that no listed one has the ends of, checked at once. */
    method TriggerNew(local: Candidate, remote: Candidate, useCandidate: bool)
      requires Valid() && remote in remotes && SameIgnoringCase(remote.transportType, local.transportType)
      modifies `pairs, `nextId, `checkList, `queue
      ensures Valid()
      ensures NewTriggered(old(Now()), local, remote, useCandidate, Now())
    {
      hide Core, PairPriority, Fold, SortedBy, Higher;
      var p := Pair(local, remote, PairPriority(local.priority, remote.priority, controlling), Frozen);
      assert RemoteKnown(remotes, p);
      var id := nextId;
      ListNew(p);
      ghost var listed := pairs;
      Enqueue(id, useCandidate);
      StatesOnlySorted(listed, pairs, checkList);
    }

    method IsQueued(id: nat) returns (queued: bool)
      ensures queued <==> InQueue(queue, id)
    {
      var hit := (t: CheckTask) => t.pair == id;
      var i := FindFirst(queue, hit);
      queued := i < |queue|;
      if queued {
        assert hit(queue[i]) && queue[i] in queue;
      } else {
        forall t | t in queue ensures t.pair != id {
          var j :| 0 <= j < |queue| && queue[j] == t;
          assert !hit(queue[j]);
        }
      }
    }

    /** Nominate the valid pair a succeeded pair produced, if it did. */
    method NominateProduct(id: nat)
      requires Valid()
      modifies `queue, `validList, `checkList, `phase
      ensures Valid() && PhaseStep(config, old(Now()), Now())
      ensures ProductNominated(config, old(Now()), id, Now())
    {
      hide Core, SortedBy, Ends, Connects, HasEntry, HasNominated, ComponentOf, Listed;
      var hit := (v: ValidPair) => v.source == Some(id);
      var i := FindFirst(validList, hit);
      if i < |validList| {
        assert hit(validList[i]) && validList[i] in validList;
        ghost var v := validList[i];
        assert Produced(validList, id, v);
        NominateIfAsked(validList[i].pair, true);
      } else {
        forall v | v in validList ensures !Produced(validList, id, v) {
          var j :| 0 <= j < |validList| && validList[j] == v;
          assert !hit(validList[j]);
        }
      }
    }

    /** A request on a listed pair. */
    method TriggerListed(id: nat, useCandidate: bool)
      requires Valid() && id in pairs
      modifies `pairs, `queue, `validList, `checkList, `phase
      ensures Valid() && PhaseStep(config, old(Now()), Now())
      ensures ListedTriggered(config, old(Now()), id, useCandidate, Now())
    {
      hide Core, SortedBy, Connects, HasNominated, ComponentOf, Produced, InQueue;
      if pairs[id].state.Succeeded? {
        if useCandidate { NominateProduct(id); }
        return;
      }
      var queued := IsQueued(id);
      if pairs[id].state.InProgress? || !queued { Enqueue(id, useCandidate); }
    }

    /** Act on an answered request. */
    method Act(h: Handling, foundation: Text)
      requires Valid() && phase.Connecting?
      modifies `pairs, `nextId, `remotes, `queue, `validList, `checkList, `phase
      ensures Valid() && PhaseStep(config, old(Now()), Now())
      ensures Acted(config, old(Now()), h, foundation, Now())
    {
      hide Core, SortedBy, Ends, Fold, Connects, ListedTriggered, NewTriggered;
      ghost var was := Now();
      var useCandidate := !controlling && h.useCandidate;
      var mine := (c: Candidate) => Mine(config, h, c);
      var at := FindFirst(locals, mine);
      if at == |locals| {
        forall l | l in locals ensures !Mine(config, h, l) {
          var j :| 0 <= j < |locals| && locals[j] == l;
          assert !mine(locals[j]);
        }
        return;
      }
      var local := locals[at];
      assert mine(local) && local in locals;
      var remote := RemoteFor(local, h, foundation);
      ghost var mid := Now();
      CoreRefs(mid);
      var k := FindPair(local.endpoint, remote.endpoint, local.transportType, false);
      if k < |checkList| {
        assert checkList[k] in mid.checkList;
        TriggerListed(checkList[k], useCandidate);
      } else {
        TriggerNew(local, remote, useCandidate);
      }
      assert RemoteLearned(was, local, h, foundation, remote, mid);
      assert Triggered(config, mid, local, remote, useCandidate, Now());
    }

    /** The rest of `do_handle_request`: it waits while the agent has not begun to connect. */
    method Continue(i: nat, foundation: Text)
      requires Valid() && i < |handling|
      modifies `pairs, `nextId, `remotes, `queue, `validList, `checkList, `phase, `handling
      ensures Valid() && PhaseStep(config, old(Now()), Now())
      ensures RequestContinued(config, old(Now()), i, foundation, Now())
    {
      hide Core, SortedBy, Connects, Acted;
      if phase.Init? || phase.Gathering? { return; }
      var h := handling[i];
      ghost var was := Now();
      handling := Without(handling, i);
      OtherFields(config, was, Now());
      if phase.Closed? || phase.Connected? { return; }
      ghost var s := Now();
      Act(h, foundation);
      PhaseStepFrom(config, was, s, Now());
    }

    // ---- local candidates and the ends of a session ----

    /** Candidates found by gathering; a host candidate, or the base of one a server has just reflected,
        is paired. */
    method AddLocals(paired: Option<Candidate>, found: seq<Candidate>)
      requires Valid() && (paired.Some? ==> paired.value.kind != Srflx)
      modifies `pairs, `nextId, `checkList, `locals
      ensures Valid()
      ensures LocalsAdded(old(Now()), paired, found, Now())
    {
      hide Core, SortedBy, Grown, Paired;
      GrownSelf(pairs, checkList);
      if paired.Some? { PairLocal(paired.value); }
      ghost var was := Now();
      locals := locals + found;
      OtherFields(config, was, Now());
    }

    /** `close`. */
    method Close()
      requires Valid()
      modifies `phase, `queue, `validList, `checkList
      ensures Valid()
      ensures Now() == if old(phase).Closed? then old(Now()) else AfterClose(old(Now()))
    {
      hide Inv;
      if phase.Closed? { return; }
      CloseKeeps(config, Now());
      phase, queue, validList, checkList := Closed, [], [], [];
    }

    /** `restart`: nominated entries outlive the generation they belong to. */
    method Restart() returns (ok: bool)
      requires Valid()
      modifies this
      ensures Valid() && (ok <==> old(phase).Connected?)
      ensures Now() == if ok then AfterRestart(old(Now())) else old(Now())
    {
      hide Inv, Filter, Unlinked, NextGeneration, IsNominated;
      if !phase.Connected? { return false; }
      RestartKeeps(config, Now());
      generation := NextGeneration(generation);
      checks := Unlinked(checks);
      checkList, queue := [], [];
      validList := Filter(validList, IsNominated());
      locals, remotes := [], [];
      phase := Init;
      return true;
    }

    /** `free_candidates`. */
    method FreeCandidates()
      requires Valid()
      modifies this
      ensures Valid()
      ensures Now() == if old(phase).Connected? then AfterFree(old(Now())) else old(Now())
    {
      hide Inv, Filter, Unsourced, IsNominated;
      if !phase.Connected? { return; }
      FreeKeeps(config, Now());
      locals, remotes, checkList, queue := [], [], [], [];
      validList := Unsourced(Filter(validList, IsNominated()));
    }

    // ---- runs ----

    method Step(e: Event)
      requires Valid()
      modifies this
      ensures Valid() && Effect(config, e, old(Now()), Now()) && Allowed(config, e, old(Now()), Now())
    {
      hide Core, SortedBy, Connects, Grown, Paired, Finished, Acted, Tops, Started, Reprioritised, Ticked, Unknown;
      match e
      case LocalsFound(paired, found) => AddLocals(Base(paired), found);
      case RemoteSignalled(c, ended) => var _ := AddRemote(c, ended);
      case RemoteResolved(c) => var _ := AdmitRemote(c);
      case LiteKnown(isLite) => SetRemoteIsLite(isLite);
      case ConnectCalled(ready) => Connect(ready);
      case TimerFired =>
        Tick();
        TickKeepsPhase(config, old(Now()), Now());
      case CheckEnded(i, outcome) => if i < |checks| { EndCheck(i, outcome); }
      case RequestArrived(r) =>
        var reply := Receive(r);
        assert RequestReceived(old(Now()), r, reply, Now());
      case RequestContinues(i, foundation) => if i < |handling| { Continue(i, foundation); }
      case CloseCalled => Close();
      case RestartCalled => var _ := Restart();
      case CandidatesFreed => FreeCandidates();
    }

    /** Any events, in any order. */
    method Run(events: seq<Event>) returns (ghost trace: seq<State>)
      requires Valid()
      modifies this
      ensures Valid()
      ensures GoodRun(config, events, trace) && trace[0] == old(Now()) && trace[|events|] == Now()
    {
      hide Inv, Allowed, Effect;
      trace := [Now()];
      for n := 0 to |events|
        invariant Valid()
        invariant |trace| == n + 1 && trace[0] == old(Now()) && trace[n] == Now()
        invariant forall i :: 0 <= i <= n ==> Inv(config, trace[i])
        invariant forall i :: 0 <= i < n ==>
                    Effect(config, events[i], trace[i], trace[i + 1]) && Allowed(config, events[i], trace[i], trace[i + 1])
      {
        Step(events[n]);
        trace := trace + [Now()];
      }
    }
  }

  /** A fresh agent, and any run of it. */
  method Session(config: Config, controlling: bool, tie: u64, events: seq<Event>) returns (agent: Agent, ghost trace: seq<State>)
    requires config.components < 255
    ensures fresh(agent) && agent.Valid() && GoodRun(config, events, trace) && trace[|events|] == agent.Now()
    ensures trace[0] == State(map[], 0, [], [], [], [], [], [], [], controlling, tie, 0, Init, false)
  {
    agent := new Agent(config, controlling, tie);
    trace := agent.Run(events);
  }
}
