/** What can happen to an agent, and what each event does to its state. */
module AgentSteps {
  import opened Wire
  import opened Order
  import opened Lists
  import opened Candidates
  import opened AgentState
  import opened AgentNomination
  import Roles

  /** How the request of a check ended. */
  datatype Outcome =
    | Canceled
    | Failure
    | RoleConflict(drawn: u64)
    | Success(mapped: Endpoint, foundation: Text)

  /** An authenticated binding request, and the reply it gets. */
  datatype Binding = Binding(controlling: Option<u64>, controlled: Option<u64>, priority: u32, useCandidate: bool,
                             from: Endpoint, transport: nat)

  datatype Reply = Ignored | Accepted | Refused

  datatype Event =
    | LocalsFound(paired: Option<Candidate>, found: seq<Candidate>)
    | RemoteSignalled(candidate: Candidate, ended: bool)
    | RemoteResolved(resolved: Candidate)
    | LiteKnown(isLite: bool)
    | ConnectCalled(ready: bool)
    | TimerFired
    | CheckEnded(check: nat, outcome: Outcome)
    | RequestArrived(request: Binding)
    | RequestContinues(at: nat, prflxFoundation: Text)
    | CloseCalled
    | RestartCalled
    | CandidatesFreed

  // ---- candidates ----

  /** Gathering tests the phase only when it begins, so candidates may turn up in every phase. The
      paired one is listed with every known remote candidate it can pair with. */
  ghost predicate LocalsAdded(s: State, paired: Option<Candidate>, found: seq<Candidate>, t: State)
  {
    && t == s.(pairs := t.pairs, nextId := t.nextId, checkList := t.checkList, locals := s.locals + found)
    && Grown(s.pairs, s.checkList, t.pairs, t.checkList)
    && (paired.Some? ==> forall r :: r in s.remotes ==> Paired(t.pairs, t.checkList, paired.value, r, s.controlling))
    && (paired.None? ==> t == s.(locals := s.locals + found))
  }

  function Signalled(c: Candidate): Candidate { c.(transport := 0, related := None) }

  predicate Listens(s: State, ended: bool) { !s.phase.Closed? && !s.phase.Connected? && !ended }

  /** A candidate is admitted if its address and transport are new and its kind can be signalled. */
  ghost predicate RemoteAdmitted(s: State, c: Candidate, t: State)
  {
    if Unknown(s.remotes, c) && c.kind != Prflx then
      && t == s.(pairs := t.pairs, nextId := t.nextId, checkList := t.checkList, remotes := s.remotes + [Signalled(c)])
      && Grown(s.pairs, s.checkList, t.pairs, t.checkList)
      && forall l :: l in s.locals ==> Paired(t.pairs, t.checkList, l, Signalled(c), s.controlling)
    else t == s
  }

  /** A candidate whose name has to be resolved first is admitted later, in whatever phase that is. */
  ghost predicate RemoteAdded(s: State, c: Candidate, ended: bool, t: State)
  {
    if Listens(s, ended) then RemoteAdmitted(s, c, t) else t == s
  }

  // ---- roles ----

  ghost predicate RoleSwitched(s: State, control: bool, t: State)
  {
    if s.lite && !control then t == s
    else
      && t == s.(controlling := control, pairs := Reprioritised(s.pairs, s.checkList, control), checkList := t.checkList)
      && multiset(t.checkList) == multiset(s.checkList) && SortedBy(t.checkList, Higher(t.pairs))
  }

  ghost predicate LiteSet(s: State, isLite: bool, t: State)
  {
    if isLite && !s.controlling then RoleSwitched(s.(lite := true), true, t) else t == s.(lite := isLite)
  }

  /** The role attribute that can conflict with this agent's role. */
  function Rival(controlling: bool, r: Binding): Option<Roles.Request>
  {
    if controlling && r.controlling.Some? then Some(Roles.Request(true, r.controlling.value))
    else if !controlling && r.controlled.Some? then Some(Roles.Request(false, r.controlled.value))
    else None
  }

  function Queued(r: Binding): Handling { Handling(r.transport, r.from, r.priority, r.useCandidate) }

  ghost predicate RequestReceived(s: State, r: Binding, reply: Reply, t: State)
  {
    if s.phase.Closed? || s.lite then reply.Ignored? && t == s
    else
      match Rival(s.controlling, r)
      case None => reply.Accepted? && t == s.(handling := s.handling + [Queued(r)])
      case Some(q) =>
        match Roles.OnRequest(Roles.Peer(s.controlling, s.tie), q)
        case Conflict => reply.Refused? && t == s
        case Accept(role) =>
          && reply.Accepted? && t.handling == s.handling + [Queued(r)]
          && RoleSwitched(s, role, t.(handling := s.handling))
  }

  // ---- checks ----

  ghost predicate ConnectStarted(s: State, ready: bool, t: State)
  {
    if (s.phase.Init? || s.phase.Gathering?) && ready then
      && t == s.(pairs := t.pairs, checkList := t.checkList, phase := Connecting)
      && SortedBy(t.checkList, Higher(t.pairs)) && multiset(t.checkList) == multiset(s.checkList)
      && exists tops :: Tops(s.pairs, t.checkList, tops) && Started(s.pairs, tops, t.pairs)
    else t == s
  }

  /** What `pick_next_pair` returns and leaves. */
  ghost predicate NextPicked(s: State, task: Option<CheckTask>, t: State)
  {
    if s.checkList == [] then task.None? && t == s
    else if s.queue != [] then task == Some(s.queue[0]) && t == s.(queue := s.queue[1..])
    else
      && t == s.(pairs := t.pairs)
      && (if SomeWaiting(s.pairs, s.checkList) then t == s else Thawed(s.pairs, s.checkList, s.checkList, t.pairs))
      && Picked(t.pairs, s.checkList, task)
      && (task.None? <==> Stalled(s.pairs, s.checkList))
  }

  function Begun(s: State, task: CheckTask): State
    requires task.pair in s.pairs
  {
    s.(pairs := s.pairs[task.pair := s.pairs[task.pair].(state := InProgress)],
       checks := s.checks + [Check(task, task.useCandidate || s.lite, s.controlling, 1, true)])
  }

  ghost predicate Ticked(config: Config, s: State, t: State)
  {
    if !s.phase.Connecting? then t == s
    else
      exists task, mid :: NextPicked(s, task, mid)
        && if task.Some? && |s.checks| < config.maxPending
           then task.value.pair in mid.pairs && t == Begun(mid, task.value) else t == mid
  }

  lemma TickKeepsPhase(config: Config, s: State, t: State)
    requires Ticked(config, s, t)
    ensures t.phase == s.phase
  {
    hide Picked, Thawed, SomeWaiting, Stalled;
  }

  /** What is left of a check when it is over. */
  ghost predicate Finished(config: Config, s: State, k: Check, outcome: Outcome, t: State)
    requires k.task.pair in s.pairs
  {
    var id := k.task.pair;
    var p := s.pairs[id];
    match outcome
    case Canceled => t == if p.state.InProgress? && !Indexed(s.checks, id) then WithState(s, id, Waiting) else s
    case Failure => t == Failing(s, id)
    case RoleConflict(_) => if !s.lite && p.state.Succeeded? then Completed(config, s, id, t) else t == Failing(s, id)
    case Success(mapped, foundation) =>
      && t == s.(pairs := t.pairs, nextId := t.nextId, locals := t.locals, validList := t.validList,
                 checkList := t.checkList, queue := t.queue, phase := t.phase)
      && Validates(config, s, id, k.useCandidate, mapped, foundation, t)
      && Validated(s, id, k.useCandidate, mapped, t)
  }

  /** After a 487 the agent takes the role its request did not have, draws a new tie-breaker and
      asks again, ten times at most; every other outcome finishes the check. */
  ghost predicate CheckOver(config: Config, s: State, i: nat, outcome: Outcome, t: State)
    requires i < |s.checks| && s.checks[i].task.pair in s.pairs
  {
    var k := s.checks[i];
    if outcome.RoleConflict? && !s.lite then
      exists mid :: RoleSwitched(s, !k.controlling, mid)
        && if k.tries < 10 then
             t == mid.(tie := outcome.drawn,
                       checks := s.checks[i := Check(k.task, k.task.useCandidate, mid.controlling, k.tries + 1, true)])
           else
             && k.task.pair in mid.pairs
             && Finished(config, mid.(tie := outcome.drawn, checks := Without(s.checks, i)), k, outcome, t)
    else Finished(config, s.(checks := Without(s.checks, i)), k, outcome, t)
  }

  /** Its role and tie-breaker after a 487 are those of the two-agent system. */
  lemma YieldsItsPart(config: Config, s: State, i: nat, outcome: Outcome, t: State)
    requires i < |s.checks| && s.checks[i].task.pair in s.pairs && CheckOver(config, s, i, outcome, t)
    requires outcome.RoleConflict? && !s.lite
    ensures Roles.Peer(t.controlling, t.tie) == Roles.OnConflict(Roles.Request(s.checks[i].controlling, s.tie), outcome.drawn)
  {
    hide Reprioritised, SortedBy, Completed;
    var k := s.checks[i];
    var mid :| RoleSwitched(s, !k.controlling, mid)
      && if k.tries < 10 then
           t == mid.(tie := outcome.drawn,
                     checks := s.checks[i := Check(k.task, k.task.useCandidate, mid.controlling, k.tries + 1, true)])
         else
           && k.task.pair in mid.pairs
           && Finished(config, mid.(tie := outcome.drawn, checks := Without(s.checks, i)), k, outcome, t);
    if k.tries >= 10 {
      var u := mid.(tie := outcome.drawn, checks := Without(s.checks, i));
      if u.pairs[k.task.pair].state.Succeeded? { CompletedSuccess(config, u, k.task.pair, t); }
    }
  }

  // ---- requests ----

  predicate Mine(config: Config, h: Handling, l: Candidate)
  {
    l.transport == h.transport && SameIgnoringCase(config.transport, l.transportType)
  }

  /** The candidate a request came from is known now, as a peer-reflexive one if it was not before. */
  ghost predicate RemoteLearned(s: State, l: Candidate, h: Handling, foundation: Text, r: Candidate, t: State)
  {
    && r in t.remotes && r.endpoint == h.from && SameIgnoringCase(r.transportType, l.transportType)
    && (t == s || (t == s.(remotes := s.remotes + [r]) && r == Learned(l, h, foundation)))
  }

  function Learned(l: Candidate, h: Handling, foundation: Text): Candidate
  {
    Candidate(foundation, l.component, l.transportType, h.priority, h.from, Prflx, None, 0)
  }

  function Requeued(s: State, id: nat, useCandidate: bool): State
    requires id in s.pairs
  {
    s.(pairs := s.pairs[id := s.pairs[id].(state := Waiting)], queue := s.queue + [CheckTask(id, useCandidate)])
  }

  ghost predicate InQueue(queue: seq<CheckTask>, id: nat) { exists q :: q in queue && q.pair == id }

  ghost predicate Produced(validList: seq<ValidPair>, id: nat, v: ValidPair) { v in validList && v.source == Some(id) }

  /** The entry a pair produced, if it did, is nominated if it may be. */
  ghost predicate ProductNominated(config: Config, s: State, id: nat, t: State)
  {
    if exists v :: Produced(s.validList, id, v) then
      exists v :: Produced(s.validList, id, v) && NominationTried(config, s, v.pair, t)
    else t == s
  }

  /** A request on a listed pair nominates what the pair produced, or queues it again unless it is. */
  ghost predicate ListedTriggered(config: Config, s: State, id: nat, useCandidate: bool, t: State)
    requires id in s.pairs
  {
    if s.pairs[id].state.Succeeded? then
      if useCandidate then ProductNominated(config, s, id, t) else t == s
    else if s.pairs[id].state.InProgress? || !InQueue(s.queue, id) then t == Requeued(s, id, useCandidate)
    else t == s
  }

  /** A request from elsewhere gets a pair of its own, listed, sorted in and queued. */
  ghost predicate NewTriggered(s: State, l: Candidate, r: Candidate, useCandidate: bool, t: State)
  {
    var p := Pair(l, r, PairPriority(l.priority, r.priority, s.controlling), Waiting);
    && t == s.(pairs := s.pairs[s.nextId := p], nextId := s.nextId + 1, checkList := t.checkList,
               queue := s.queue + [CheckTask(s.nextId, useCandidate)])
    && multiset(t.checkList) == multiset(s.checkList + [s.nextId]) && SortedBy(t.checkList, Higher(t.pairs))
  }

  /** The ends of the pair that joins two candidates. */
  function Between(l: Candidate, r: Candidate): (Endpoint, Endpoint, Text)
  {
    (l.endpoint, r.endpoint, Fold(l.transportType))
  }

  ghost predicate Triggered(config: Config, s: State, l: Candidate, r: Candidate, useCandidate: bool, t: State)
  {
    || (exists id :: id in s.checkList && id in s.pairs && Ends(s.pairs[id]) == Between(l, r)
          && ListedTriggered(config, s, id, useCandidate, t))
    || ((forall id :: id in s.checkList && id in s.pairs ==> Ends(s.pairs[id]) != Between(l, r))
        && NewTriggered(s, l, r, useCandidate, t))
  }

  /** What an answered request does to a connecting agent. */
  ghost predicate Acted(config: Config, s: State, h: Handling, foundation: Text, t: State)
  {
    || (t == s && forall l :: l in s.locals ==> !Mine(config, h, l))
    || exists l, r, mid :: l in s.locals && Mine(config, h, l) && RemoteLearned(s, l, h, foundation, r, mid)
         && Triggered(config, mid, l, r, !s.controlling && h.useCandidate, t)
  }

  lemma NominationKeepsPairs(config: Config, s: State, id: nat, t: State)
    requires ProductNominated(config, s, id, t)
    ensures t.pairs == s.pairs
  {
    hide Nominable, AfterNomination, AllNominated, OtherPairs, OtherTasks;
  }

  lemma TriggeredAnswers(config: Config, s: State, l: Candidate, r: Candidate, useCandidate: bool, t: State)
    requires Triggered(config, s, l, r, useCandidate, t)
    ensures Answered(t.pairs, t.queue, Between(l, r))
  {
    hide Fold, PairPriority, SortedBy, Answered, ProductNominated;
    if id :| id in s.checkList && id in s.pairs && Ends(s.pairs[id]) == Between(l, r)
             && ListedTriggered(config, s, id, useCandidate, t) {
      if s.pairs[id].state.Succeeded? && useCandidate { NominationKeepsPairs(config, s, id, t); }
      if !s.pairs[id].state.Succeeded? && t == Requeued(s, id, useCandidate) {
        assert t.queue[|s.queue|] in t.queue && t.queue[|s.queue|].pair == id;
      }
      AnsweredBy(t.pairs, t.queue, id);
    } else {
      assert t.queue[|s.queue|] in t.queue && t.queue[|s.queue|].pair == s.nextId;
      AnsweredBy(t.pairs, t.queue, s.nextId);
    }
  }

  /** Unless no local candidate has its transport, a request leaves the pair it points at succeeded or
      queued. */
  lemma ActedAnswers(config: Config, s: State, h: Handling, foundation: Text, t: State)
    requires Acted(config, s, h, foundation, t) && exists l :: l in s.locals && Mine(config, h, l)
    ensures exists l :: && l in s.locals && Mine(config, h, l)
                        && Answered(t.pairs, t.queue, (l.endpoint, h.from, Fold(l.transportType)))
  {
    hide Mine, Triggered, Answered;
    var l, r, mid :| l in s.locals && Mine(config, h, l) && RemoteLearned(s, l, h, foundation, r, mid)
      && Triggered(config, mid, l, r, !s.controlling && h.useCandidate, t);
    TriggeredAnswers(config, mid, l, r, !s.controlling && h.useCandidate, t);
  }

  ghost predicate RequestContinued(config: Config, s: State, i: nat, foundation: Text, t: State)
    requires i < |s.handling|
  {
    match s.phase
    case Init => t == s
    case Gathering => t == s
    case Closed => t == s.(handling := Without(s.handling, i))
    case Connected => t == s.(handling := Without(s.handling, i))
    case Connecting =>
      && t == s.(pairs := t.pairs, nextId := t.nextId, remotes := t.remotes, queue := t.queue, validList := t.validList,
                 checkList := t.checkList, phase := t.phase, handling := Without(s.handling, i))
      && Acted(config, s.(handling := Without(s.handling, i)), s.handling[i], foundation, t)
  }

  // ---- steps ----

  ghost predicate Effect(config: Config, e: Event, s: State, t: State)
  {
    match e
    case LocalsFound(paired, found) => LocalsAdded(s, Base(paired), found, t)
    case RemoteSignalled(c, ended) => RemoteAdded(s, c, ended, t)
    case RemoteResolved(c) => RemoteAdmitted(s, c, t)
    case LiteKnown(isLite) => LiteSet(s, isLite, t)
    case ConnectCalled(ready) => ConnectStarted(s, ready, t)
    case TimerFired => Ticked(config, s, t)
    case CheckEnded(i, outcome) =>
      if i < |s.checks| then s.checks[i].task.pair in s.pairs && CheckOver(config, s, i, outcome, t) else t == s
    case RequestArrived(r) => exists reply :: RequestReceived(s, r, reply, t)
    case RequestContinues(i, foundation) =>
      if i < |s.handling| then RequestContinued(config, s, i, foundation, t) else t == s
    case CloseCalled => t == if s.phase.Closed? then s else AfterClose(s)
    case RestartCalled => t == if s.phase.Connected? then AfterRestart(s) else s
    case CandidatesFreed => t == if s.phase.Connected? then AfterFree(s) else s
  }

  /** A server-reflexive candidate is never paired itself. */
  function Base(paired: Option<Candidate>): Option<Candidate>
  {
    if paired.Some? && paired.value.kind.Srflx? then None else paired
  }

  /** Closed is for ever, connected is left only by closing or restarting, and whatever step connects
      leaves exactly one nominated valid pair for every component. */
  ghost predicate Allowed(config: Config, e: Event, s: State, t: State)
  {
    && (s.phase.Closed? ==> t.phase.Closed?)
    && (s.phase.Connected? && !t.phase.Connected? ==> e.CloseCalled? || e.RestartCalled?)
    && (t.phase.Connected? && !s.phase.Connected? ==> Connects(config, t))
  }

  /** A run: every state satisfies the invariant, and every event has its effect within what is allowed. */
  ghost predicate GoodRun(config: Config, events: seq<Event>, trace: seq<State>)
  {
    && |trace| == |events| + 1
    && (forall i :: 0 <= i <= |events| ==> Inv(config, trace[i]))
    && (forall i :: 0 <= i < |events| ==>
          Effect(config, events[i], trace[i], trace[i + 1]) && Allowed(config, events[i], trace[i], trace[i + 1]))
  }

  // ---- what a good run means ----

  /** Once closed, a run stays closed. */
  lemma {:induction false} ClosedForEver(config: Config, events: seq<Event>, trace: seq<State>, i: nat, j: nat)
    requires GoodRun(config, events, trace) && i <= j < |trace|
    requires trace[i].phase.Closed?
    ensures trace[j].phase.Closed?
    decreases j - i
  {
    hide Inv, Effect;
    if i < j {
      assert Allowed(config, events[i], trace[i], trace[i + 1]);
      ClosedForEver(config, events, trace, i + 1, j);
    }
  }

  /** A run that is connected after some event, closed or restarted by none since, is still connected. */
  lemma {:induction false} ConnectedUntilEnded(config: Config, events: seq<Event>, trace: seq<State>, i: nat, j: nat)
    requires GoodRun(config, events, trace) && i <= j < |trace|
    requires trace[i].phase.Connected?
    requires forall k :: i <= k < j ==> !events[k].CloseCalled? && !events[k].RestartCalled?
    ensures trace[j].phase.Connected?
    decreases j - i
  {
    hide Inv, Effect;
    if i < j {
      assert Allowed(config, events[i], trace[i], trace[i + 1]);
      ConnectedUntilEnded(config, events, trace, i + 1, j);
    }
  }

  /** In every reachable state: an entry of the valid list that is not nominated is of this generation
      and has a source. */
  lemma ValidEntryFacts(config: Config, s: State, i: nat)
    requires Inv(config, s) && i < |s.validList|
    ensures var v := s.validList[i];
            && v.pair in s.pairs && (v.source.Some? ==> v.source.value in s.pairs)
            && (!v.nominated ==> v.generation == s.generation && v.source.Some?)
  {
    hide Pairwise, RemotesKnown, PrioritiesOk, SortedBy;
    assert s.validList[i] in s.validList;
    assert EntryOk(s.pairs, s.validList[i], s.generation);
  }

  /** In every reachable state: two entries of the valid list differ in endpoints or transport, and no
      component has two nominated ones. */
  lemma ValidListFacts(config: Config, s: State, i: nat, j: nat)
    requires Inv(config, s) && i < j < |s.validList|
    ensures var v, w := s.validList[i], s.validList[j];
            && v.pair in s.pairs && w.pair in s.pairs
            && Ends(s.pairs[v.pair]) != Ends(s.pairs[w.pair])
            && (v.nominated && w.nominated ==> Component(s.pairs[v.pair]) != Component(s.pairs[w.pair]))
  {
    hide Ends;
    ValidEntryFacts(config, s, i);
    ValidEntryFacts(config, s, j);
    assert Apart(s.pairs)(s.validList[i], s.validList[j]);
  }

  /** In every reachable state: a listed pair has the priority its candidates give it under the
      current role, its remote address is a known candidate, and with trickling the list is sorted. */
  lemma CheckListFacts(config: Config, s: State, i: nat, j: nat)
    requires Inv(config, s) && i <= j < |s.checkList|
    ensures var p, q := s.checkList[i], s.checkList[j];
            && p in s.pairs && q in s.pairs
            && s.pairs[p].priority == PairPriority(s.pairs[p].local.priority, s.pairs[p].remote.priority, s.controlling)
            && RemoteKnown(s.remotes, s.pairs[p])
            && (config.trickle ==> s.pairs[p].priority >= s.pairs[q].priority)
  {
    hide RemoteKnown, PairPriority, ValidOk;
    assert s.checkList[i] in s.checkList && s.checkList[j] in s.checkList;
    if config.trickle && i < j { assert !Higher(s.pairs)(s.checkList[j], s.checkList[i]); }
  }
}
