/** Two agents that check each other over a network that may lose, repeat and reorder everything. Their
    roles and tie-breakers move as in `Roles`, so what is proved there holds of agents. */
module AgentDuel {
  import opened Wire
  import opened Candidates
  import opened AgentState
  import opened AgentNomination
  import opened AgentSteps
  import opened Agent
  import Roles

  /** The states of both agents, the role attributes of every request ever sent, and the requests ever
      refused with 487. */
  datatype Duel = Duel(larger: State, smaller: State,
                       sent: set<(Roles.Side, Roles.Request)>, refused: set<(Roles.Side, Roles.Request)>)

  function At(d: Duel, side: Roles.Side): State { if side.Larger? then d.larger else d.smaller }

  function PeerOf(s: State): Roles.Peer { Roles.Peer(s.controlling, s.tie) }

  function Project(d: Duel): Roles.System
  {
    Roles.System(PeerOf(d.larger), PeerOf(d.smaller), d.sent, d.refused)
  }

  /** The role attribute of a request by an agent. */
  function CarriedBy(r: Binding): Option<Roles.Request>
  {
    if r.controlling.Some? && r.controlled.None? then Some(Roles.Request(true, r.controlling.value))
    else if r.controlled.Some? && r.controlling.None? then Some(Roles.Request(false, r.controlled.value))
    else None
  }

  /** The 487s of this event: those of a check that is still known. */
  predicate TakesConflict(s: State, e: Event) { e.CheckEnded? && e.check < |s.checks| && e.outcome.RoleConflict? }

  /** The network only delivers what was sent, and the peer is full. */
  predicate Possible(d: Duel, side: Roles.Side, e: Event)
  {
    var s := At(d, side);
    && (e.LiteKnown? ==> !e.isLite)
    && (e.RequestArrived? ==> CarriedBy(e.request).Some? && (Roles.Other(side), CarriedBy(e.request).value) in d.sent)
    && (TakesConflict(s, e) ==>
          exists m :: m in d.refused && m.0 == side && m.1.controlling == s.checks[e.check].controlling)
  }

  /** A refused request stays refused; everything else leaves a request alone. */
  function RefusedBy(s: State, side: Roles.Side, e: Event): set<(Roles.Side, Roles.Request)>
  {
    if e.RequestArrived? && CarriedBy(e.request).Some? && !s.phase.Closed? && !s.lite
       && Roles.OnRequest(PeerOf(s), CarriedBy(e.request).value).Conflict?
    then {(Roles.Other(side), CarriedBy(e.request).value)} else {}
  }

  /** A check that begins, and one that tries again, sends a request. */
  function SentBy(s: State, side: Roles.Side, e: Event, t: State): set<(Roles.Side, Roles.Request)>
  {
    if |t.checks| > |s.checks| || (TakesConflict(s, e) && |t.checks| == |s.checks|)
    then {(side, Roles.RequestOf(PeerOf(t)))} else {}
  }

  function Moved(d: Duel, side: Roles.Side, e: Event, t: State): Duel
  {
    var s := At(d, side);
    Duel(if side.Larger? then t else d.larger, if side.Larger? then d.smaller else t,
         d.sent + SentBy(s, side, e, t), d.refused + RefusedBy(s, side, e))
  }

  ghost predicate DuelStep(config: Config, d: Duel, side: Roles.Side, e: Event, d': Duel)
  {
    Possible(d, side, e) && Effect(config, e, At(d, side), At(d', side)) && d' == Moved(d, side, e, At(d', side))
  }

  predicate Full(d: Duel) { !d.larger.lite && !d.smaller.lite }

  // ---- one step ----

  /** Every event but a request and a 487 keeps role and tie-breaker. */
  lemma RoleKept(config: Config, e: Event, s: State, t: State)
    requires Effect(config, e, s, t) && !e.RequestArrived? && !TakesConflict(s, e) && !s.lite && (e.LiteKnown? ==> !e.isLite)
    ensures PeerOf(t) == PeerOf(s) && !t.lite
  {
    hide Grown, Paired, Unknown, Tops, Started, NextPicked, Acted, Validates, Validated, Indexed, AfterRestart,
         AfterFree, AfterClose;
    match e
    case TimerFired => TickKeepsRole(config, s, t);
    case RestartCalled => EndingsKeepRole(s);
    case CandidatesFreed => EndingsKeepRole(s);
    case CloseCalled => EndingsKeepRole(s);
    case LocalsFound(_, _) =>
    case RemoteSignalled(_, _) =>
    case RemoteResolved(_) =>
    case LiteKnown(_) =>
    case ConnectCalled(_) =>
    case CheckEnded(_, _) =>
    case RequestArrived(_) =>
    case RequestContinues(_, _) =>
  }

  lemma TickKeepsRole(config: Config, s: State, t: State)
    requires Ticked(config, s, t)
    ensures PeerOf(t) == PeerOf(s) && t.lite == s.lite
  {
    hide Picked, Thawed, SomeWaiting, Stalled;
  }

  lemma EndingsKeepRole(s: State)
    ensures PeerOf(AfterRestart(s)) == PeerOf(s) && PeerOf(AfterFree(s)) == PeerOf(s) && PeerOf(AfterClose(s)) == PeerOf(s)
    ensures AfterRestart(s).lite == s.lite && AfterFree(s).lite == s.lite && AfterClose(s).lite == s.lite
  {
  }

  /** A request is answered as in `Roles`. */
  lemma RequestKept(s: State, r: Binding, reply: Reply, t: State)
    requires RequestReceived(s, r, reply, t) && CarriedBy(r).Some? && !s.lite
    ensures !t.lite && |t.checks| == |s.checks|
    ensures s.phase.Closed? ==> t == s
    ensures !s.phase.Closed? ==>
              match Roles.OnRequest(PeerOf(s), CarriedBy(r).value)
              case Conflict => t == s
              case Accept(role) => PeerOf(t) == PeerOf(s).(controlling := role)
  {
    hide Reprioritised;
  }

  lemma YieldKept(config: Config, s: State, i: nat, outcome: Outcome, t: State)
    requires i < |s.checks| && s.checks[i].task.pair in s.pairs && CheckOver(config, s, i, outcome, t)
    requires outcome.RoleConflict? && !s.lite
    ensures PeerOf(t) == Roles.Peer(!s.checks[i].controlling, outcome.drawn) && !t.lite
    ensures |t.checks| <= |s.checks|
  {
    hide CheckOver;
    YieldsItsPart(config, s, i, outcome, t);
    ConflictKeepsPeer(config, s, i, outcome, t);
  }

  lemma ConflictKeepsPeer(config: Config, s: State, i: nat, outcome: Outcome, t: State)
    requires i < |s.checks| && s.checks[i].task.pair in s.pairs && CheckOver(config, s, i, outcome, t)
    requires outcome.RoleConflict? && !s.lite
    ensures !t.lite && |t.checks| <= |s.checks|
  {
    hide Reprioritised, Completed;
    var k := s.checks[i];
    var mid :| RoleSwitched(s, !k.controlling, mid)
      && if k.tries < 10 then
           t == mid.(tie := outcome.drawn,
                     checks := s.checks[i := Check(k.task, k.task.useCandidate, mid.controlling, k.tries + 1, true)])
         else
           && k.task.pair in mid.pairs
           && Finished(config, mid.(tie := outcome.drawn, checks := Without(s.checks, i)), k, outcome, t);
    if k.tries >= 10 {
      var u := mid.(tie := outcome.drawn, checks := Without(s.checks, i));
      if u.pairs[k.task.pair].state.Succeeded? { CompletedSuccess(config, u, k.task.pair, t); }
    }
  }

  /** One step of the agents is none, one or two steps of `Roles`. */
  lemma StepProjects(config: Config, d: Duel, side: Roles.Side, e: Event, d': Duel) returns (es: seq<Roles.Event>)
    requires Full(d) && DuelStep(config, d, side, e, d')
    ensures Full(d') && Roles.Run(Project(d), es) == Project(d')
  {
    hide Effect, Roles.OnRequest;
    var s, t := At(d, side), At(d', side);
    if e.RequestArrived? {
      es := RequestProjects(config, d, side, e, d');
    } else if TakesConflict(s, e) {
      es := ConflictProjects(config, d, side, e, d');
    } else {
      RoleKept(config, e, s, t);
      es := if |t.checks| > |s.checks| then [Roles.Send(side)] else [];
      RunOne(Project(d), Roles.Send(side));
    }
  }

  lemma RunOne(s: Roles.System, e: Roles.Event)
    ensures Roles.Run(s, []) == s && Roles.Run(s, [e]) == Roles.Apply(s, e)
  {
  }

  lemma RunTwo(s: Roles.System, e: Roles.Event, f: Roles.Event)
    ensures Roles.Run(s, [e, f]) == Roles.Apply(Roles.Apply(s, e), f)
  {
    RunOne(Roles.Apply(s, e), f);
    assert [e, f][1..] == [f];
  }

  lemma RequestProjects(config: Config, d: Duel, side: Roles.Side, e: Event, d': Duel) returns (es: seq<Roles.Event>)
    requires Full(d) && DuelStep(config, d, side, e, d') && e.RequestArrived?
    ensures Full(d') && Roles.Run(Project(d), es) == Project(d')
  {
    hide Roles.OnRequest, RequestReceived;
    var s, t, q := At(d, side), At(d', side), CarriedBy(e.request).value;
    var reply :| RequestReceived(s, e.request, reply, t);
    RequestKept(s, e.request, reply, t);
    es := if s.phase.Closed? then [] else [Roles.DeliverRequest(Roles.Other(side), q)];
    RunOne(Project(d), Roles.DeliverRequest(Roles.Other(side), q));
  }

  lemma ConflictProjects(config: Config, d: Duel, side: Roles.Side, e: Event, d': Duel) returns (es: seq<Roles.Event>)
    requires Full(d) && DuelStep(config, d, side, e, d') && TakesConflict(At(d, side), e)
    ensures Full(d') && Roles.Run(Project(d), es) == Project(d')
  {
    hide CheckOver;
    var s, t := At(d, side), At(d', side);
    YieldKept(config, s, e.check, e.outcome, t);
    var m :| m in d.refused && m.0 == side && m.1.controlling == s.checks[e.check].controlling;
    var conflict := Roles.DeliverConflict(side, m.1, e.outcome.drawn);
    assert m == (side, m.1);
    es := if |t.checks| == |s.checks| then [conflict, Roles.Send(side)] else [conflict];
    RunOne(Project(d), conflict);
    RunTwo(Project(d), conflict, Roles.Send(side));
  }

  // ---- runs ----

  function ConfigOf(larger: Config, smaller: Config, side: Roles.Side): Config { if side.Larger? then larger else smaller }

  /** Any interleaving of what can happen to either agent. */
  ghost predicate DuelRun(larger: Config, smaller: Config, steps: seq<(Roles.Side, Event)>, trace: seq<Duel>)
  {
    && |trace| == |steps| + 1 && Full(trace[0])
    && forall i :: 0 <= i < |steps| ==>
         DuelStep(ConfigOf(larger, smaller, steps[i].0), trace[i], steps[i].0, steps[i].1, trace[i + 1])
  }

  /** Every run of two agents projects to a run of `Roles`. */
  lemma {:induction false} RunProjects(larger: Config, smaller: Config, steps: seq<(Roles.Side, Event)>, trace: seq<Duel>,
                                       i: nat, j: nat) returns (es: seq<Roles.Event>)
    requires DuelRun(larger, smaller, steps, trace) && i <= j < |trace| && Full(trace[i])
    ensures Full(trace[j]) && Roles.Run(Project(trace[i]), es) == Project(trace[j])
    decreases j - i
  {
    hide DuelStep, Full, Roles.Run;
    if i == j {
      RunOne(Project(trace[i]), Roles.Send(Roles.Larger));
      es := [];
    } else {
      var first := StepProjects(ConfigOf(larger, smaller, steps[i].0), trace[i], steps[i].0, steps[i].1, trace[i + 1]);
      var rest := RunProjects(larger, smaller, steps, trace, i + 1, j);
      Roles.RunTwice(Project(trace[i]), first, rest);
      es := first + rest;
    }
  }

  /** Role safety of agents: between any two points of any run of two full agents with different
      tie-breakers, the larger one never turns from controlling to controlled, the smaller one never from
      controlled to controlling, and complementary roles stay as they are. */
  lemma AgentsRoleSafety(larger: Config, smaller: Config, steps: seq<(Roles.Side, Event)>, trace: seq<Duel>, i: nat, j: nat)
    requires DuelRun(larger, smaller, steps, trace) && i <= j < |trace|
    requires trace[0].sent == {} && trace[0].refused == {} && trace[0].larger.tie > trace[0].smaller.tie
    ensures Roles.SafeStep(Project(trace[i]), Project(trace[j]))
  {
    hide DuelStep, Roles.Run;
    var before := RunProjects(larger, smaller, steps, trace, 0, i);
    var after := RunProjects(larger, smaller, steps, trace, i, j);
    Roles.RunTwice(Project(trace[0]), before, after);
    Roles.RoleSafety(Project(trace[0]), before, after);
  }

  /** Two agents taking turns as the script says; a message that was never sent is not delivered. */
  method Converse(a: Agent, b: Agent, script: seq<(Roles.Side, Event)>)
    returns (ghost steps: seq<(Roles.Side, Event)>, ghost trace: seq<Duel>)
    requires a != b && a.Valid() && b.Valid() && !a.lite && !b.lite
    modifies a, b
    ensures a.Valid() && b.Valid() && DuelRun(a.config, b.config, steps, trace)
    ensures trace[0] == Duel(old(a.Now()), old(b.Now()), {}, {})
    ensures trace[|steps|].larger == a.Now() && trace[|steps|].smaller == b.Now()
    ensures old(a.tie) > old(b.tie) ==>
              forall i, j :: 0 <= i <= j < |trace| ==> Roles.SafeStep(Project(trace[i]), Project(trace[j]))
  {
    hide Inv, Effect, Allowed, Possible, SentBy, RefusedBy;
    var sent, refused: set<(Roles.Side, Roles.Request)> := {}, {};
    steps, trace := [], [Duel(a.Now(), b.Now(), {}, {})];
    for n := 0 to |script|
      invariant a.Valid() && b.Valid()
      invariant DuelRun(a.config, b.config, steps, trace) && trace[0] == Duel(old(a.Now()), old(b.Now()), {}, {})
      invariant trace[|steps|] == Duel(a.Now(), b.Now(), sent, refused)
    {
      var d, side, e := Duel(a.Now(), b.Now(), sent, refused), script[n].0, script[n].1;
      if Possible(d, side, e) {
        if side.Larger? { a.Step(e); } else { b.Step(e); }
        var t := if side.Larger? then a.Now() else b.Now();
        sent, refused := sent + SentBy(At(d, side), side, e, t), refused + RefusedBy(At(d, side), side, e);
        steps, trace := steps + [(side, e)], trace + [Duel(a.Now(), b.Now(), sent, refused)];
      }
    }
    if old(a.tie) > old(b.tie) {
      forall i, j | 0 <= i <= j < |trace| ensures Roles.SafeStep(Project(trace[i]), Project(trace[j])) {
        AgentsRoleSafety(a.config, b.config, steps, trace, i, j);
      }
    }
  }
}
