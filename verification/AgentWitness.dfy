/** Runs of an agent through a restart, event by event. */
module AgentWitness {
  import opened Wire
  import opened Order
  import opened Lists
  import opened Candidates
  import opened AgentState
  import opened AgentNomination
  import opened AgentSteps
  import opened AgentRestart
  import opened Agent

  // ---- one peer meets the agent ----

  /** A connecting agent with nothing to do. */
  predicate Ready(s: State)
  {
    && s.phase.Connecting? && !s.lite
    && s.checkList == [] && s.queue == [] && s.checks == [] && s.handling == []
  }

  /** A request that comes from a new address to the local candidate `l` and raises no role conflict. */
  predicate Newcomer(config: Config, s: State, l: Candidate, r: Binding)
  {
    && l in s.locals && Mine(config, Queued(r), l) && Rival(s.controlling, r).None? && config.maxPending > 0
    && (forall x :: x in s.locals && x.transport == r.transport ==> x == l)
    && (forall x :: x in s.remotes ==> x.endpoint != r.from)
  }

  /** The pair that is formed, in the given state. */
  function Formed(s: State, l: Candidate, r: Binding, foundation: Text, state: PairState): Pair
  {
    var remote := Learned(l, Queued(r), foundation);
    Pair(l, remote, PairPriority(l.priority, remote.priority, s.controlling), state)
  }

  function Asked(s: State, r: Binding): bool { !s.controlling && r.useCandidate }

  /** The check of that pair under way. */
  function Met(s: State, l: Candidate, r: Binding, foundation: Text): State
  {
    s.(pairs := s.pairs[s.nextId := Formed(s, l, r, foundation, InProgress)], nextId := s.nextId + 1,
       checkList := [s.nextId], remotes := s.remotes + [Learned(l, Queued(r), foundation)],
       checks := [Check(CheckTask(s.nextId, Asked(s, r)), Asked(s, r), s.controlling, 1, true)])
  }

  /** Its pair triggered. */
  function Waited(s: State, l: Candidate, r: Binding, foundation: Text): State
  {
    Met(s, l, r, foundation).(pairs := s.pairs[s.nextId := Formed(s, l, r, foundation, Waiting)], checks := [],
                              queue := [CheckTask(s.nextId, Asked(s, r))])
  }

  lemma Arrives(config: Config, s: State, l: Candidate, r: Binding, t: State)
    requires Ready(s) && Newcomer(config, s, l, r) && Effect(config, RequestArrived(r), s, t)
    ensures t == s.(handling := [Queued(r)])
  {
  }

  lemma Single(n: nat, s: seq<nat>)
    requires multiset(s) == multiset([] + [n])
    ensures s == [n]
  {
    assert |multiset(s)| == |s| && |multiset([] + [n])| == 1;
    assert s[0] in multiset(s);
  }

  lemma Learns(config: Config, s: State, l: Candidate, r: Binding, foundation: Text, x: Candidate, remote: Candidate, t: State)
    requires Newcomer(config, s, l, r) && x in s.locals && Mine(config, Queued(r), x)
    requires RemoteLearned(s, x, Queued(r), foundation, remote, t)
    ensures x == l && remote == Learned(l, Queued(r), foundation) && t == s.(remotes := s.remotes + [remote])
  {
    hide Fold;
  }

  lemma ActsOn(config: Config, s: State, h: Handling, foundation: Text, t: State)
    requires Ready(s) && Effect(config, RequestContinues(0, foundation), s.(handling := [h]), t)
    ensures Acted(config, s, h, foundation, t)
  {
    hide Acted;
    assert Without([h], 0) == [];
  }

  lemma TriggersNew(config: Config, s: State, l: Candidate, remote: Candidate, useCandidate: bool, t: State)
    requires s.checkList == [] && s.queue == [] && Triggered(config, s, l, remote, useCandidate, t)
    ensures NewTriggered(s, l, remote, useCandidate, t) && t.checkList == [s.nextId]
  {
    hide SortedBy, PairPriority, ListedTriggered, Ends, Between;
    Single(s.nextId, t.checkList);
  }

  lemma Continues(config: Config, s: State, l: Candidate, r: Binding, foundation: Text, t: State)
    requires Ready(s) && Newcomer(config, s, l, r)
    requires Effect(config, RequestContinues(0, foundation), s.(handling := [Queued(r)]), t)
    ensures t == Waited(s, l, r, foundation)
  {
    hide Effect, Newcomer, Mine, RemoteLearned, SortedBy, PairPriority, Triggered;
    ActsOn(config, s, Queued(r), foundation, t);
    assert l in s.locals && Mine(config, Queued(r), l) by { NewcomerMine(config, s, l, r); }
    var x, remote, mid :| x in s.locals && Mine(config, Queued(r), x)
      && RemoteLearned(s, x, Queued(r), foundation, remote, mid) && Triggered(config, mid, x, remote, Asked(s, r), t);
    Learns(config, s, l, r, foundation, x, remote, mid);
    TriggersNew(config, mid, l, remote, Asked(s, r), t);
  }

  lemma NewcomerMine(config: Config, s: State, l: Candidate, r: Binding)
    requires Newcomer(config, s, l, r)
    ensures l in s.locals && Mine(config, Queued(r), l)
  {
  }

  lemma Starts(config: Config, s: State, l: Candidate, r: Binding, foundation: Text, t: State)
    requires Ready(s) && Newcomer(config, s, l, r) && Effect(config, TimerFired, Waited(s, l, r, foundation), t)
    ensures t == Met(s, l, r, foundation)
  {
    hide Picked, Thawed, SomeWaiting, Stalled, PairPriority;
    var u := Waited(s, l, r, foundation);
    var task, mid :| NextPicked(u, task, mid)
      && if task.Some? && |u.checks| < config.maxPending
         then task.value.pair in mid.pairs && t == Begun(mid, task.value) else t == mid;
    assert mid == u.(queue := []);
  }

  // ---- its check succeeds ----

  /** No valid pair leads to this address. */
  ghost predicate NoneFrom(s: State, from: Endpoint)
  {
    forall v :: v in s.validList && v.pair in s.pairs ==> s.pairs[v.pair].remote.endpoint != from
  }

  /** The pair has succeeded and is its own valid pair. */
  function Proved(s: State, l: Candidate, r: Binding, foundation: Text): State
  {
    Met(s, l, r, foundation).(pairs := s.pairs[s.nextId := Formed(s, l, r, foundation, Succeeded)], checks := [],
                              validList := s.validList + [ValidPair(s.nextId, Some(s.nextId), false, s.generation)])
  }

  lemma Promotes(config: Config, s: State, l: Candidate, r: Binding, foundation: Text, g: Text, entry: nat, t: State)
    requires Inv(config, s) && Ready(s) && NoneFrom(s, r.from)
    requires Promoted(Met(s, l, r, foundation).(checks := []), s.nextId, l.endpoint, g, entry, t)
    ensures entry == s.nextId && t == Proved(s, l, r, foundation)
  {
    hide PairPriority, Fold, Core;
    var u := Met(s, l, r, foundation).(checks := []);
    CoreRefs(s);
    forall v | v in u.validList && v.pair in u.pairs ensures Ends(u.pairs[v.pair]) != Ends(u.pairs[s.nextId]) {
      var i :| 0 <= i < |s.validList| && s.validList[i] == v;
      ValidEntryFacts(config, s, i);
    }
    assert NoEntry(u.pairs, u.validList, Ends(u.pairs[s.nextId]));
  }

  lemma Succeeds(config: Config, s: State, l: Candidate, r: Binding, foundation: Text, g: Text, t: State) returns (m: State)
    requires Inv(config, s) && Ready(s) && NoneFrom(s, r.from)
    requires Effect(config, CheckEnded(0, Success(l.endpoint, g)), Met(s, l, r, foundation), t)
    ensures if Asked(s, r) then NominationTried(config, Proved(s, l, r, foundation), s.nextId, m)
            else m == Proved(s, l, r, foundation)
    ensures Completed(config, m, s.nextId, t)
  {
    hide Inv, PairPriority, Promoted, NominationTried, Completed, NoneFrom, Validated;
    var u := Met(s, l, r, foundation);
    assert Without(u.checks, 0) == [];
    var entry, p, n :| && Promoted(u.(checks := []), s.nextId, l.endpoint, g, entry, p)
      && (if Asked(s, r) then NominationTried(config, p, entry, n) else n == p) && Completed(config, n, s.nextId, t);
    Promotes(config, s, l, r, foundation, g, entry, p);
    m := n;
  }

  lemma NothingToRelease(pairs: Pairs, ids: seq<nat>, foundation: Text, now: Pairs)
    requires Released(pairs, ids, foundation, now)
    requires forall id :: id in ids && id in pairs ==> !pairs[id].state.Frozen?
    ensures now == pairs
  {
    hide Foundation;
  }

  /** A controlling agent goes on to ask for nominations. */
  lemma ProvesOnly(config: Config, s: State, l: Candidate, r: Binding, foundation: Text, g: Text, t: State)
    requires Inv(config, s) && Ready(s) && NoneFrom(s, r.from) && s.controlling
    requires Effect(config, CheckEnded(0, Success(l.endpoint, g)), Met(s, l, r, foundation), t)
    ensures DefaultNominated(config, Proved(s, l, r, foundation), t)
  {
    hide Inv, Effect, PairPriority, DefaultNominated, Foundation, Released;
    var p := Proved(s, l, r, foundation);
    var m := Succeeds(config, s, l, r, foundation, g, t);
    var mid :| Released(p.pairs, p.checkList, Foundation(p.pairs[s.nextId]), mid)
               && DefaultNominated(config, p.(pairs := mid), t);
    NothingToRelease(p.pairs, p.checkList, Foundation(p.pairs[s.nextId]), mid);
  }

  lemma LastEntry(config: Config, s: State, l: Candidate, r: Binding, foundation: Text, i: nat)
    requires Inv(config, s)
    requires i < |Proved(s, l, r, foundation).validList| && Proved(s, l, r, foundation).validList[i].pair == s.nextId
    ensures i == |s.validList|
  {
    hide Core;
    CoreRefs(s);
    if i < |s.validList| { ValidEntryFacts(config, s, i); }
  }

  lemma NoneListed(pairs: Pairs, id: nat)
    ensures Filter([id], OtherPairs(pairs, id)) == []
  {
    assert forall x :: x !in Filter([id], OtherPairs(pairs, id));
  }

  /** A controlled agent asked for it nominates the pair at once. */
  lemma Nominates(config: Config, s: State, l: Candidate, r: Binding, foundation: Text, g: Text, t: State)
    requires Inv(config, s) && Ready(s) && NoneFrom(s, r.from) && Asked(s, r)
    requires !CurrentFor(s.pairs, s.validList, s.generation, l.component)
    requires Effect(config, CheckEnded(0, Success(l.endpoint, g)), Met(s, l, r, foundation), t)
    ensures t == Nominated(config, Proved(s, l, r, foundation), |s.validList|) && t.checkList == []
  {
    hide Inv, Effect, PairPriority, Foundation, Released, AllNominated, AfterNomination, Formed, CurrentFor;
    var p, n := Proved(s, l, r, foundation), s.nextId;
    var m := Succeeds(config, s, l, r, foundation, g, t);
    var i :| 0 <= i < |p.validList| && p.validList[i].pair == n && m == if Nominable(p, i) then Nominated(config, p, i) else p;
    LastEntry(config, s, l, r, foundation, i);
    MayNominate(config, s, l, r, foundation);
    NoneListed(p.pairs, n);
    assert m.pairs == p.pairs && m.pairs[n].state.Succeeded? by { FormedHas(s, l, r, foundation); }
    var mid :| Released(m.pairs, m.checkList, Foundation(m.pairs[n]), mid) && DefaultNominated(config, m.(pairs := mid), t);
    NothingToRelease(m.pairs, m.checkList, Foundation(m.pairs[n]), mid);
  }

  lemma FormedHas(s: State, l: Candidate, r: Binding, foundation: Text)
    ensures Proved(s, l, r, foundation).pairs[s.nextId].state.Succeeded?
    ensures ComponentOf(Proved(s, l, r, foundation).pairs, s.nextId) == l.component
  {
    hide PairPriority;
  }

  lemma MayNominate(config: Config, s: State, l: Candidate, r: Binding, foundation: Text)
    requires Inv(config, s) && Ready(s) && !CurrentFor(s.pairs, s.validList, s.generation, l.component)
    ensures Nominable(Proved(s, l, r, foundation), |s.validList|)
  {
    hide Core, Formed;
    CoreRefs(s);
    FormedHas(s, l, r, foundation);
    var p := Proved(s, l, r, foundation);
    forall v | v in p.validList && NominatedFor(p.pairs, v, l.component) ensures v.generation != p.generation {
      var i :| 0 <= i < |p.validList| && p.validList[i] == v;
      if i < |s.validList| { ValidEntryFacts(config, s, i); }
      assert NominatedFor(s.pairs, v, l.component);
    }
  }

  // ---- whole exchanges ----

  /** Four events: a request arrives and is acted on, the timer starts the check, the check succeeds. */
  ghost predicate Exchange(config: Config, l: Candidate, r: Binding, trace: seq<State>, k: nat)
  {
    && k + 4 < |trace|
    && Effect(config, RequestArrived(r), trace[k], trace[k + 1])
    && Effect(config, RequestContinues(0, []), trace[k + 1], trace[k + 2])
    && Effect(config, TimerFired, trace[k + 2], trace[k + 3])
    && Effect(config, CheckEnded(0, Success(l.endpoint, [])), trace[k + 3], trace[k + 4])
  }

  lemma Meets(config: Config, l: Candidate, r: Binding, trace: seq<State>, k: nat)
    requires Exchange(config, l, r, trace, k) && Ready(trace[k]) && Newcomer(config, trace[k], l, r)
    ensures trace[k + 3] == Met(trace[k], l, r, [])
  {
    hide Effect, Ready, Newcomer, Met, Waited;
    Arrives(config, trace[k], l, r, trace[k + 1]);
    Continues(config, trace[k], l, r, [], trace[k + 2]);
    Starts(config, trace[k], l, r, [], trace[k + 3]);
  }

  /** What a nominating exchange gains. */
  ghost predicate Gained(config: Config, s: State, l: Candidate, r: Binding, t: State)
  {
    var n := s.nextId;
    && t == s.(pairs := t.pairs, nextId := n + 1, remotes := t.remotes, validList := t.validList, phase := t.phase)
    && t.pairs.Keys == s.pairs.Keys + {n} && (forall id :: id in s.pairs && id != n ==> t.pairs[id] == s.pairs[id])
    && Component(t.pairs[n]) == l.component && t.pairs[n].remote.endpoint == r.from
    && (forall x :: x in t.remotes ==> x in s.remotes || x.endpoint == r.from)
    && (forall v :: v in t.validList <==>
          || v == ValidPair(n, Some(n), true, s.generation)
          || (v in s.validList && (ComponentOf(s.pairs, v.pair) != l.component || v.generation == s.generation)))
    && t.phase == if AllNominated(t.pairs, t.validList, config.components) then Connected else s.phase
  }

  lemma NominatedGains(config: Config, s: State, l: Candidate, r: Binding, t: State)
    requires Inv(config, s) && Ready(s)
    requires t == Nominated(config, Proved(s, l, r, []), |s.validList|) && t.checkList == []
    ensures Gained(config, s, l, r, t)
  {
    hide AllNominated, PairPriority, Core;
    CoreRefs(s);
    var p, n := Proved(s, l, r, []), s.nextId;
    var marked := Mark(p.validList, |s.validList|);
    assert marked == s.validList + [ValidPair(n, Some(n), true, s.generation)];
    forall v | v in s.validList
      ensures v.pair in s.pairs && v.pair != n && ComponentOf(p.pairs, v.pair) == ComponentOf(s.pairs, v.pair)
    {
      var i :| 0 <= i < |s.validList| && s.validList[i] == v;
      ValidEntryFacts(config, s, i);
    }
  }

  lemma Gains(config: Config, l: Candidate, r: Binding, trace: seq<State>, k: nat)
    requires Exchange(config, l, r, trace, k) && Inv(config, trace[k]) && Ready(trace[k]) && Newcomer(config, trace[k], l, r)
    requires NoneFrom(trace[k], r.from) && Asked(trace[k], r)
    requires !CurrentFor(trace[k].pairs, trace[k].validList, trace[k].generation, l.component)
    ensures Gained(config, trace[k], l, r, trace[k + 4])
  {
    hide Inv, Effect, Ready, Newcomer, Met, Proved, Nominated, CurrentFor, NoneFrom, Gained;
    Meets(config, l, r, trace, k);
    Nominates(config, trace[k], l, r, [], [], trace[k + 4]);
    NominatedGains(config, trace[k], l, r, trace[k + 4]);
  }

  // ---- two components, controlled: reconnected on an old pair ----

  function Home(component: byte, at: u16): Candidate
  {
    Candidate([], component, [], 1, Endpoint([10, 0, 0, 1], at), Host, None, at)
  }

  /** A controlling peer asks for the pair to be nominated. */
  function Nomination(from: u16, at: u16): Binding
  {
    Binding(Some(9), None, 1, true, Endpoint([10, 0, 0, 2], from), at)
  }

  function Two(): Config { Config(false, 2, [], 10) }

  function Visit(l: Candidate, r: Binding): seq<Event>
  {
    [RequestArrived(r), RequestContinues(0, []), TimerFired, CheckEnded(0, Success(l.endpoint, []))]
  }

  /** Both components are nominated, the agent restarts, and only component 1 is nominated again. */
  function HalfRestarted(): seq<Event>
  {
    [LocalsFound(None, [Home(1, 1), Home(2, 2)]), ConnectCalled(true)]
    + Visit(Home(1, 1), Nomination(1, 1)) + Visit(Home(2, 2), Nomination(2, 2))
    + [RestartCalled, LocalsFound(None, [Home(1, 3)]), ConnectCalled(true)]
    + Visit(Home(1, 3), Nomination(3, 3))
  }

  function Fresh(controlling: bool): State
  {
    State(map[], 0, [], [], [], [], [], [], [], controlling, 7, 0, Init, false)
  }

  lemma Begins(config: Config, found: seq<Candidate>, s: State, t: State, u: State)
    requires s.phase.Init? && s.checkList == []
    requires Effect(config, LocalsFound(None, found), s, t) && Effect(config, ConnectCalled(true), t, u)
    ensures u == s.(locals := s.locals + found, phase := Connecting)
  {
    hide Grown, SortedBy;
    assert t == s.(locals := s.locals + found);
    var tops :| Tops(t.pairs, u.checkList, tops) && Started(t.pairs, tops, u.pairs);
    assert |u.checkList| == |multiset(u.checkList)| == 0;
    assert forall x :: x !in tops;
  }

  lemma VisitAt(config: Config, events: seq<Event>, trace: seq<State>, k: nat, l: Candidate, r: Binding)
    requires GoodRun(config, events, trace) && k + 4 <= |events| && events[k..k + 4] == Visit(l, r)
    ensures Exchange(config, l, r, trace, k) && Inv(config, trace[k])
  {
    hide Inv, Effect, Allowed;
    assert events[k] == Visit(l, r)[0] && events[k + 1] == Visit(l, r)[1];
    assert events[k + 2] == Visit(l, r)[2] && events[k + 3] == Visit(l, r)[3];
  }

  lemma HalfRestartedParts()
    ensures var events := HalfRestarted();
            && |events| == 17
            && events[0] == LocalsFound(None, [Home(1, 1), Home(2, 2)]) && events[1] == ConnectCalled(true)
            && events[2..6] == Visit(Home(1, 1), Nomination(1, 1)) && events[6..10] == Visit(Home(2, 2), Nomination(2, 2))
            && events[10] == RestartCalled
            && events[11] == LocalsFound(None, [Home(1, 3)]) && events[12] == ConnectCalled(true)
            && events[13..17] == Visit(Home(1, 3), Nomination(3, 3))
  {
  }

  /** The pairs of the two components, nominated in generation 0. */
  const FIRST: ValidPair := ValidPair(0, Some(0), true, 0)
  const SECOND: ValidPair := ValidPair(1, Some(1), true, 0)

  ghost predicate OnlyFirst(s: State)
  {
    && s == Fresh(false).(locals := [Home(1, 1), Home(2, 2)], phase := Connecting, pairs := s.pairs, nextId := 1,
                          remotes := s.remotes, validList := s.validList)
    && s.pairs.Keys == {0} && Component(s.pairs[0]) == 1 && s.pairs[0].remote.endpoint == Nomination(1, 1).from
    && (forall x :: x in s.remotes ==> x.endpoint == Nomination(1, 1).from)
    && (forall v :: v in s.validList <==> v == FIRST)
  }

  lemma FirstNominated(s: State, t: State)
    requires s == Fresh(false).(locals := [Home(1, 1), Home(2, 2)], phase := Connecting)
    requires Gained(Two(), s, Home(1, 1), Nomination(1, 1), t)
    ensures OnlyFirst(t)
  {
    assert !HasNominated(t.pairs, t.validList, 2);
    assert !AllNominated(t.pairs, t.validList, 2);
  }

  ghost predicate BothFirst(s: State)
  {
    && s.phase.Connected? && !s.controlling && !s.lite && s.generation == 0 && s.nextId == 2
    && s.checks == [] && s.handling == []
    && s.pairs.Keys == {0, 1} && Component(s.pairs[0]) == 1 && Component(s.pairs[1]) == 2
    && s.pairs[0].remote.endpoint == Nomination(1, 1).from && s.pairs[1].remote.endpoint == Nomination(2, 2).from
    && (forall v :: v in s.validList <==> v == FIRST || v == SECOND)
  }

  lemma BothNominated(s: State, t: State)
    requires OnlyFirst(s) && Gained(Two(), s, Home(2, 2), Nomination(2, 2), t)
    ensures BothFirst(t)
  {
    assert FIRST in t.validList && NominatedFor(t.pairs, FIRST, 1);
    assert SECOND in t.validList && NominatedFor(t.pairs, SECOND, 2);
  }

  lemma OnlyFirstReady(s: State)
    requires OnlyFirst(s)
    ensures Ready(s) && Newcomer(Two(), s, Home(2, 2), Nomination(2, 2)) && NoneFrom(s, Nomination(2, 2).from)
    ensures !CurrentFor(s.pairs, s.validList, s.generation, 2) && Asked(s, Nomination(2, 2))
  {
    assert Home(2, 2) == s.locals[1];
  }

  lemma AfterBothReady(s: State, t: State)
    requires BothFirst(s) && t == AfterRestart(s).(locals := [Home(1, 3)], phase := Connecting)
    ensures Ready(t) && Newcomer(Two(), t, Home(1, 3), Nomination(3, 3)) && NoneFrom(t, Nomination(3, 3).from)
    ensures !CurrentFor(t.pairs, t.validList, t.generation, 1) && Asked(t, Nomination(3, 3))
    ensures t.generation == 1 && t.nextId == 2 && t.pairs == s.pairs && t.remotes == []
    ensures forall v :: v in t.validList <==> v == FIRST || v == SECOND
  {
    assert Home(1, 3) == t.locals[0];
  }

  lemma FreshReady(s: State)
    requires s == Fresh(false).(locals := [Home(1, 1), Home(2, 2)], phase := Connecting)
    ensures Ready(s) && Newcomer(Two(), s, Home(1, 1), Nomination(1, 1)) && NoneFrom(s, Nomination(1, 1).from)
    ensures !CurrentFor(s.pairs, s.validList, s.generation, 1) && Asked(s, Nomination(1, 1))
  {
    assert Home(1, 1) == s.locals[0];
  }

  /** Connected in generation 1, with component 2 on the pair of generation 0. */
  ghost predicate HalfOld(s: State)
  {
    && s.phase.Connected? && s.generation == 1 && CurrentFor(s.pairs, s.validList, 1, 1)
    && !CurrentFor(s.pairs, s.validList, 1, 2) && SECOND in s.validList && NominatedFor(s.pairs, SECOND, 2)
  }

  lemma EndsHalfOld(s: State, t: State)
    requires s.generation == 1 && s.nextId == 2 && s.phase.Connecting? && s.pairs.Keys == {0, 1}
    requires Component(s.pairs[0]) == 1 && Component(s.pairs[1]) == 2
    requires forall v :: v in s.validList <==> v == FIRST || v == SECOND
    requires Gained(Two(), s, Home(1, 3), Nomination(3, 3), t)
    ensures HalfOld(t)
  {
    var v := ValidPair(2, Some(2), true, 1);
    assert v in t.validList && NominatedFor(t.pairs, v, 1);
    assert SECOND in t.validList && NominatedFor(t.pairs, SECOND, 2);
  }

  lemma HalfRestartedEnds(trace: seq<State>)
    requires GoodRun(Two(), HalfRestarted(), trace) && trace[0] == Fresh(false)
    ensures HalfOld(trace[17])
  {
    hide Inv, Effect, Allowed, Exchange, Gained, Ready, Newcomer, NoneFrom, CurrentFor, OnlyFirst, HalfOld, Visit, Home,
         Nomination, HalfRestarted;
    HalfRestartedParts();
    var events := HalfRestarted();
    VisitAt(Two(), events, trace, 2, Home(1, 1), Nomination(1, 1));
    VisitAt(Two(), events, trace, 6, Home(2, 2), Nomination(2, 2));
    VisitAt(Two(), events, trace, 13, Home(1, 3), Nomination(3, 3));
    Begins(Two(), [Home(1, 1), Home(2, 2)], trace[0], trace[1], trace[2]);
    FreshReady(trace[2]);
    HomeOf();
    Gains(Two(), Home(1, 1), Nomination(1, 1), trace, 2);
    FirstNominated(trace[2], trace[6]);
    OnlyFirstReady(trace[6]);
    Gains(Two(), Home(2, 2), Nomination(2, 2), trace, 6);
    BothNominated(trace[6], trace[10]);
    Restarts(Two(), trace[10], trace[11]);
    Begins(Two(), [Home(1, 3)], trace[11], trace[12], trace[13]);
    AfterBothReady(trace[10], trace[13]);
    Gains(Two(), Home(1, 3), Nomination(3, 3), trace, 13);
    EndsHalfOld(trace[13], trace[17]);
  }

  lemma HomeOf()
    ensures Home(1, 1).component == 1 && Home(2, 2).component == 2 && Home(1, 3).component == 1
  {
  }

  lemma Restarts(config: Config, s: State, t: State)
    requires Effect(config, RestartCalled, s, t) && s.phase.Connected?
    ensures t == AfterRestart(s) && t.phase.Init? && t.checkList == [] && t.locals == []
  {
  }

  /** A run that reconnects after a restart with one component on its pair from before. */
  method ReconnectsOnOldPair() returns (agent: Agent, ghost trace: seq<State>)
    ensures fresh(agent) && GoodRun(Two(), HalfRestarted(), trace) && trace[17] == agent.Now() && HalfOld(agent.Now())
  {
    hide HalfRestarted, GoodRun, HalfOld;
    HalfRestartedParts();
    agent, trace := Session(Two(), false, 7, HalfRestarted());
    HalfRestartedEnds(trace);
  }

  // ---- one component, controlling: nothing is asked for ----

  function One(): Config { Config(false, 1, [], 10) }

  /** A check of a controlled peer. */
  function Plain(from: u16, at: u16): Binding
  {
    Binding(None, Some(9), 1, false, Endpoint([10, 0, 0, 2], from), at)
  }

  function Again(l: Candidate): seq<Event> { [TimerFired, CheckEnded(0, Success(l.endpoint, []))] }

  /** The agent connects, restarts, and finds a valid pair. */
  function Restarted(): seq<Event>
  {
    [LocalsFound(None, [Home(1, 1)]), ConnectCalled(true)]
    + Visit(Home(1, 1), Plain(1, 1)) + Again(Home(1, 1))
    + [RestartCalled, LocalsFound(None, [Home(1, 2)]), ConnectCalled(true)]
    + Visit(Home(1, 2), Plain(2, 2))
  }

  lemma RestartedParts()
    ensures var events := Restarted();
            && |events| == 15
            && events[0] == LocalsFound(None, [Home(1, 1)]) && events[1] == ConnectCalled(true)
            && events[2..6] == Visit(Home(1, 1), Plain(1, 1))
            && events[6] == TimerFired && events[7] == CheckEnded(0, Success(Home(1, 1).endpoint, []))
            && events[8] == RestartCalled
            && events[9] == LocalsFound(None, [Home(1, 2)]) && events[10] == ConnectCalled(true)
            && events[11..15] == Visit(Home(1, 2), Plain(2, 2))
  {
  }

  /** A controlling agent's exchange ends with asking for nominations. */
  lemma ProvesAt(config: Config, l: Candidate, r: Binding, trace: seq<State>, k: nat)
    requires Exchange(config, l, r, trace, k) && Inv(config, trace[k]) && Ready(trace[k]) && Newcomer(config, trace[k], l, r)
    requires NoneFrom(trace[k], r.from) && trace[k].controlling
    ensures DefaultNominated(config, Proved(trace[k], l, r, []), trace[k + 4])
  {
    hide Inv, Effect, Ready, Newcomer, Met, Proved, NoneFrom, DefaultNominated;
    Meets(config, l, r, trace, k);
    ProvesOnly(config, trace[k], l, r, [], [], trace[k + 4]);
  }

  /** The one pair of the first session, valid, in the given state. */
  function Alone(state: PairState): State
  {
    var s := Fresh(true).(locals := [Home(1, 1)], phase := Connecting);
    var p := Proved(s, Home(1, 1), Plain(1, 1), []);
    p.(pairs := map[0 := Formed(s, Home(1, 1), Plain(1, 1), [], state)])
  }

  lemma SingleEntry(v: ValidPair, s: seq<ValidPair>)
    requires multiset(s) == multiset([v])
    ensures s == [v]
  {
    assert |multiset(s)| == |s| && |multiset([v])| == 1;
    assert s[0] in multiset(s);
  }

  lemma AloneFacts(a: PairState, b: PairState)
    ensures var s := Alone(a);
            && s.pairs.Keys == {0} && Component(s.pairs[0]) == 1 && s.pairs[0].state == a
            && s.validList == [ValidPair(0, Some(0), false, 0)] && s.queue == [] && s.phase.Connecting? && s.controlling
            && Alone(b) == s.(pairs := map[0 := s.pairs[0].(state := b)])
  {
    hide PairPriority;
  }

  lemma OneWanted(pairs: Pairs, v: ValidPair)
    requires ComponentOf(pairs, v.pair) == 1 && !v.nominated
    ensures Wanted(pairs, [v], 1) == [1]
  {
    assert v in [v];
    assert HasValid(pairs, [v], 1) && !HasNominated(pairs, [v], 1);
    assert Wanted(pairs, [v], 0) == [];
  }

  lemma AsksOnce(t: State)
    requires DefaultNominated(One(), Alone(Succeeded), t)
    ensures t == Alone(Waiting).(queue := [CheckTask(0, true)])
  {
    hide SortedBy, Alone, Wanted;
    AloneFacts(Succeeded, Waiting);
    var p, v := Alone(Succeeded), ValidPair(0, Some(0), false, 0);
    SingleEntry(v, t.validList);
    OneWanted(p.pairs, v);
    assert t.queue[0..] == t.queue;
    assert Asks(p.pairs, [v], 1, t.queue[0]);
    assert t.queue == [CheckTask(0, true)];
    assert t.queue[0] in t.queue && t.queue[0].pair == 0;
  }

  lemma StartsAgain(t: State)
    requires Effect(One(), TimerFired, Alone(Waiting).(queue := [CheckTask(0, true)]), t)
    ensures t == Alone(InProgress).(checks := [Check(CheckTask(0, true), true, true, 1, true)])
  {
    hide Picked, Thawed, SomeWaiting, Stalled, PairPriority;
    var u := Alone(Waiting).(queue := [CheckTask(0, true)]);
    var task, mid :| NextPicked(u, task, mid)
      && if task.Some? && |u.checks| < One().maxPending
         then task.value.pair in mid.pairs && t == Begun(mid, task.value) else t == mid;
    assert mid == u.(queue := []);
  }

  lemma PromotesAgain(entry: nat, t: State)
    requires Promoted(Alone(InProgress), 0, Home(1, 1).endpoint, [], entry, t)
    ensures entry == 0 && t == Alone(Succeeded)
  {
    hide PairPriority, Fold;
    var u := Alone(InProgress);
    var v := ValidPair(0, Some(0), false, 0);
    assert u.validList == [v] && v in u.validList;
    assert !NoEntry(u.pairs, u.validList, Ends(u.pairs[0]));
  }

  /** Connected, with the one nominated entry of generation 0. */
  ghost predicate FirstOnly(s: State)
  {
    && s == Alone(Succeeded).(checkList := [], validList := s.validList, phase := Connected)
    && forall v :: v in s.validList <==> v == FIRST
  }

  lemma NominatesSingle(pairs: Pairs, v: ValidPair, generation: u32)
    ensures forall x :: x in AfterNomination(pairs, [v], generation, 0) <==> x == v.(nominated := true)
  {
    hide ComponentOf;
    assert Mark([v], 0) == [v.(nominated := true)];
    assert Survives(pairs, v.pair, generation)(v.(nominated := true));
  }

  lemma NominatesAlone(m: State)
    requires NominationTried(One(), Alone(Succeeded), 0, m)
    ensures FirstOnly(m)
  {
    hide Alone, AfterNomination;
    AloneFacts(Succeeded, Succeeded);
    var p, v := Alone(Succeeded), ValidPair(0, Some(0), false, 0);
    assert Nominable(p, 0);
    NominatesSingle(p.pairs, v, p.generation);
    assert m == Nominated(One(), p, 0) && FIRST in m.validList && NominatedFor(m.pairs, FIRST, 1);
    assert AllNominated(m.pairs, m.validList, 1);
    AloneListed();
    NoneListed(p.pairs, 0);
  }

  lemma AloneListed()
    ensures Alone(Succeeded).checkList == [0] && Alone(Succeeded).generation == 0
  {
  }

  lemma ConnectsAlone(t: State)
    requires Effect(One(), CheckEnded(0, Success(Home(1, 1).endpoint, [])),
                    Alone(InProgress).(checks := [Check(CheckTask(0, true), true, true, 1, true)]), t)
    ensures FirstOnly(t)
  {
    hide PairPriority, Promoted, NominationTried, Validated, Foundation, Released, Completed, FirstOnly;
    var u := Alone(InProgress).(checks := [Check(CheckTask(0, true), true, true, 1, true)]);
    assert Without(u.checks, 0) == [];
    var entry, p, n :| && Promoted(u.(checks := []), 0, Home(1, 1).endpoint, [], entry, p)
                       && NominationTried(One(), p, entry, n) && Completed(One(), n, 0, t);
    PromotesAgain(entry, p);
    NominatesAlone(n);
    CompletesConnected(n, t);
  }

  lemma CompletesConnected(s: State, t: State)
    requires FirstOnly(s) && Completed(One(), s, 0, t)
    ensures t == s
  {
    hide PairPriority, Foundation, Released;
    var mid :| Released(s.pairs, s.checkList, Foundation(s.pairs[0]), mid) && DefaultNominated(One(), s.(pairs := mid), t);
    NothingToRelease(s.pairs, s.checkList, Foundation(s.pairs[0]), mid);
  }

  lemma AloneReady(s: State)
    requires s == Fresh(true).(locals := [Home(1, 1)], phase := Connecting)
    ensures Ready(s) && Newcomer(One(), s, Home(1, 1), Plain(1, 1)) && NoneFrom(s, Plain(1, 1).from)
    ensures Proved(s, Home(1, 1), Plain(1, 1), []) == Alone(Succeeded)
  {
    hide PairPriority;
    assert Home(1, 1) == s.locals[0];
  }

  lemma AfterFirstReady(s: State, t: State)
    requires FirstOnly(s) && t == AfterRestart(s).(locals := [Home(1, 2)], phase := Connecting)
    ensures Ready(t) && Newcomer(One(), t, Home(1, 2), Plain(2, 2)) && NoneFrom(t, Plain(2, 2).from)
    ensures t.controlling && t.generation == 1 && t.nextId == 1
    ensures t.pairs == s.pairs && 0 in t.pairs && Component(t.pairs[0]) == 1
    ensures forall v :: v in t.validList <==> v == FIRST
  {
    hide PairPriority;
    assert Home(1, 2) == t.locals[0];
  }

  /** Connecting in generation 1, with a valid pair of that generation, nothing queued and nothing under
      way: the old nominated pair holds the nomination back. */
  ghost predicate Idle(s: State)
  {
    && s.phase.Connecting? && s.controlling && s.generation == 1 && s.queue == [] && s.checks == [] && s.handling == []
    && Listed(s.validList, 1, Some(1), 1) && FIRST in s.validList && HeldBack(s.pairs, s.validList, 1, 1)
  }

  lemma EndsIdle(s: State, t: State)
    requires Ready(s) && s.controlling && s.generation == 1 && s.nextId == 1 && 0 in s.pairs && Component(s.pairs[0]) == 1
    requires forall v :: v in s.validList <==> v == FIRST
    requires DefaultNominated(One(), Proved(s, Home(1, 2), Plain(2, 2), []), t)
    ensures Idle(t)
  {
    hide PairPriority, Woken, AsksFor, SortedBy;
    var p := Proved(s, Home(1, 2), Plain(2, 2), []);
    var v := ValidPair(1, Some(1), false, 1);
    assert p.validList[|s.validList|] == v;
    NothingAsked(One(), p, t, FIRST);
    PermutationMembers(p.validList, t.validList);
    assert v in t.validList && ComponentOf(t.pairs, 1) == 1 && NominatedFor(t.pairs, FIRST, 1);
  }

  lemma RestartedEnds(trace: seq<State>)
    requires GoodRun(One(), Restarted(), trace) && trace[0] == Fresh(true)
    ensures trace[8].phase.Connected? && Idle(trace[15])
  {
    hide Inv, Effect, Allowed, Exchange, Ready, Newcomer, NoneFrom, Idle, Visit, Home, Plain, Restarted, Alone, Proved,
         DefaultNominated;
    RestartedParts();
    var events := Restarted();
    VisitAt(One(), events, trace, 2, Home(1, 1), Plain(1, 1));
    VisitAt(One(), events, trace, 11, Home(1, 2), Plain(2, 2));
    Begins(One(), [Home(1, 1)], trace[0], trace[1], trace[2]);
    AloneReady(trace[2]);
    ProvesAt(One(), Home(1, 1), Plain(1, 1), trace, 2);
    AsksOnce(trace[6]);
    StartsAgain(trace[7]);
    ConnectsAlone(trace[8]);
    Restarts(One(), trace[8], trace[9]);
    Begins(One(), [Home(1, 2)], trace[9], trace[10], trace[11]);
    AfterFirstReady(trace[8], trace[11]);
    ProvesAt(One(), Home(1, 2), Plain(2, 2), trace, 11);
    EndsIdle(trace[11], trace[15]);
  }

  /** A run of a controlling agent that connects, restarts, finds a valid pair and asks for nothing. */
  method AsksForNothing() returns (agent: Agent, ghost trace: seq<State>)
    ensures fresh(agent) && GoodRun(One(), Restarted(), trace) && trace[15] == agent.Now() && Idle(agent.Now())
  {
    hide Restarted, GoodRun, Idle;
    RestartedParts();
    agent, trace := Session(One(), true, 7, Restarted());
    RestartedEnds(trace);
  }
}
