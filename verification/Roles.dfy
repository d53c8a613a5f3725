/** Role conflicts between two full agents (section 7.3.1.1 of RFC 8445).
    The network may lose, repeat and reorder everything: a message that was ever sent can be
    delivered at any later time, any number of times, or never. */
module Roles {
  import opened Wire

  datatype Peer = Peer(controlling: bool, tie: u64)
  datatype Request = Request(controlling: bool, tie: u64)
  datatype Answer = Accept(controlling: bool) | Conflict

  /** What `build_request` puts in a connectivity check. */
  function RequestOf(p: Peer): Request { Request(p.controlling, p.tie) }

  /** How `do_handle_request` answers: the role afterwards, or a 487 that changes nothing. */
  function OnRequest(p: Peer, r: Request): Answer
  {
    if p.controlling && r.controlling then
      if p.tie >= r.tie then Conflict else Accept(false)
    else if !p.controlling && !r.controlling then
      if p.tie >= r.tie then Accept(true) else Conflict
    else Accept(p.controlling)
  }

  /** How `do_check` takes a 487: the opposite of the role that request carried, and a tie-breaker
      drawn afresh. */
  function OnConflict(r: Request, drawn: u64): Peer { Peer(!r.controlling, drawn) }

  // ---- two agents and a network ----

  /** The agents are named by their initial tie-breakers. */
  datatype Side = Larger | Smaller
  datatype System = System(larger: Peer, smaller: Peer, requests: set<(Side, Request)>, conflicts: set<(Side, Request)>)

  datatype Event =
    | Send(from: Side)
    | DeliverRequest(from: Side, request: Request)
    | DeliverConflict(to: Side, request: Request, drawn: u64)

  function At(s: System, side: Side): Peer { if side.Larger? then s.larger else s.smaller }

  function Set(s: System, side: Side, p: Peer): System
  {
    if side.Larger? then s.(larger := p) else s.(smaller := p)
  }

  function Other(side: Side): Side { if side.Larger? then Smaller else Larger }

  function Apply(s: System, e: Event): System
  {
    match e
    case Send(from) => s.(requests := s.requests + {(from, RequestOf(At(s, from)))})
    case DeliverRequest(from, r) =>
      if (from, r) !in s.requests then s
      else
        var p := At(s, Other(from));
        (match OnRequest(p, r)
         case Accept(controlling) => Set(s, Other(from), p.(controlling := controlling))
         case Conflict => s.(conflicts := s.conflicts + {(from, r)}))
    case DeliverConflict(to, r, drawn) =>
      if (to, r) !in s.conflicts then s else Set(s, to, OnConflict(r, drawn))
  }

  function Run(s: System, events: seq<Event>): System
    decreases |events|
  {
    if events == [] then s else Run(Apply(s, events[0]), events[1..])
  }

  predicate Init(s: System) { s.requests == {} && s.conflicts == {} && s.larger.tie > s.smaller.tie }

  predicate Complementary(s: System) { s.larger.controlling != s.smaller.controlling }

  // ---- what every step keeps ----

  /** Both began controlling: the larger one never yields, and only the smaller one hears 487. */
  ghost predicate BothControlling(s: System, large: u64, small: u64)
  {
    && s.larger == Peer(true, large)
    && (s.smaller.controlling ==> s.smaller.tie == small)
    && (forall m :: m in s.requests ==>
          if m.0.Larger? then m.1 == Request(true, large) else m.1.controlling ==> m.1.tie == small)
    && (forall m :: m in s.conflicts ==> m.0.Smaller? && m.1.controlling)
  }

  /** Both began controlled: the smaller one stays, and only the larger one hears 487. */
  ghost predicate BothControlled(s: System, large: u64, small: u64)
  {
    && s.smaller == Peer(false, small)
    && (!s.larger.controlling ==> s.larger.tie == large)
    && (forall m :: m in s.requests ==>
          if m.0.Smaller? then m.1 == Request(false, small) else !m.1.controlling ==> m.1.tie == large)
    && (forall m :: m in s.conflicts ==> m.0.Larger? && !m.1.controlling)
  }

  /** The roles began complementary: nothing ever changes. */
  ghost predicate Settled(s: System, larger: Peer, smaller: Peer)
  {
    && s.larger == larger && s.smaller == smaller
    && (forall m :: m in s.requests ==> m.1 == RequestOf(if m.0.Larger? then larger else smaller))
    && s.conflicts == {}
  }

  ghost predicate Invariant(s: System, larger: Peer, smaller: Peer)
  {
    if larger.controlling != smaller.controlling then Settled(s, larger, smaller)
    else if larger.controlling then BothControlling(s, larger.tie, smaller.tie)
    else BothControlled(s, larger.tie, smaller.tie)
  }

  lemma InitHolds(s: System)
    requires Init(s)
    ensures Invariant(s, s.larger, s.smaller)
  {
  }

  /** The step relation of the safety theorem. */
  predicate SafeStep(s: System, t: System)
  {
    && (s.larger.controlling ==> t.larger.controlling)
    && (t.smaller.controlling ==> s.smaller.controlling)
    && (Complementary(s) ==> t.larger.controlling == s.larger.controlling && t.smaller.controlling == s.smaller.controlling)
  }

  lemma StepKeeps(s: System, e: Event, larger: Peer, smaller: Peer)
    requires larger.tie > smaller.tie && Invariant(s, larger, smaller)
    ensures Invariant(Apply(s, e), larger, smaller)
    ensures SafeStep(s, Apply(s, e))
  {
  }

  lemma {:induction false} RunKeeps(s: System, events: seq<Event>, larger: Peer, smaller: Peer)
    requires larger.tie > smaller.tie && Invariant(s, larger, smaller)
    ensures Invariant(Run(s, events), larger, smaller)
    ensures SafeStep(s, Run(s, events))
    decreases |events|
  {
    hide Invariant, Apply;
    if events != [] {
      StepKeeps(s, events[0], larger, smaller);
      RunKeeps(Apply(s, events[0]), events[1..], larger, smaller);
    }
  }

  lemma {:induction false} RunTwice(s: System, first: seq<Event>, second: seq<Event>)
    ensures Run(s, first + second) == Run(Run(s, first), second)
    decreases |first|
  {
    hide Apply;
    if first == [] {
      assert first + second == second;
    } else {
      assert (first + second)[1..] == first[1..] + second;
      RunTwice(Apply(s, first[0]), first[1..], second);
    }
  }

  /** Between any two points of any run: the agent with the larger tie-breaker never goes from
      controlling to controlled, the other never from controlled to controlling, and complementary
      roles stay exactly as they are. */
  lemma RoleSafety(s: System, before: seq<Event>, after: seq<Event>)
    requires Init(s)
    ensures SafeStep(Run(s, before), Run(s, before + after))
  {
    hide Invariant, Run;
    InitHolds(s);
    RunKeeps(s, before, s.larger, s.smaller);
    RunKeeps(Run(s, before), after, s.larger, s.smaller);
    RunTwice(s, before, after);
  }

  // ---- progress ----

  /** One check carried through: sent, delivered and, if refused, its 487 delivered too. */
  function Exchange(from: Side, r: Request, drawn: u64): seq<Event>
  {
    [Send(from), DeliverRequest(from, r), DeliverConflict(from, r, drawn)]
  }

  lemma RunExchange(s: System, from: Side, r: Request, drawn: u64)
    ensures Run(s, Exchange(from, r, drawn))
         == Apply(Apply(Apply(s, Send(from)), DeliverRequest(from, r)), DeliverConflict(from, r, drawn))
  {
    hide Apply;
    var es := Exchange(from, r, drawn);
    var s1 := Apply(s, es[0]);
    var s2 := Apply(s1, es[1]);
    assert es[1..][1..] == es[2..] && es[2..][1..] == [];
    assert Run(s2, es[2..]) == Run(Apply(s2, es[2]), []);
    assert Run(s1, es[1..]) == Run(s2, es[2..]);
  }

  /** Wherever a run has got to, one check that gets through, from either side, leaves the roles
      complementary; by `RoleSafety` they then stay so. */
  lemma OneExchangeSettles(s: System, events: seq<Event>, from: Side, drawn: u64)
    requires Init(s)
    ensures var t := Run(s, events);
            Complementary(Run(t, Exchange(from, RequestOf(At(t, from)), drawn)))
  {
    var t := Run(s, events);
    assert Invariant(t, s.larger, s.smaller) by {
      hide Run;
      InitHolds(s);
      RunKeeps(s, events, s.larger, s.smaller);
    }
    ExchangeSettles(t, from, drawn, s.larger, s.smaller);
  }

  lemma ExchangeSettles(t: System, from: Side, drawn: u64, larger: Peer, smaller: Peer)
    requires larger.tie > smaller.tie && Invariant(t, larger, smaller)
    ensures Complementary(Run(t, Exchange(from, RequestOf(At(t, from)), drawn)))
  {
    hide Run;
    var r := RequestOf(At(t, from));
    RunExchange(t, from, r, drawn);
    var t1 := Apply(t, Send(from));
    var t2 := Apply(t1, DeliverRequest(from, r));
    StepKeeps(t, Send(from), larger, smaller);
    StepKeeps(t1, DeliverRequest(from, r), larger, smaller);
    StepKeeps(t2, DeliverConflict(from, r, drawn), larger, smaller);
  }

  /** With equal tie-breakers two controlling agents refuse each other and swap into a new conflict. */
  lemma EqualTiesCanFlip(tie: u64)
    ensures var s := System(Peer(true, tie), Peer(true, tie), {}, {});
            var r := Request(true, tie);
            var t := Run(s, [Send(Larger), Send(Smaller), DeliverRequest(Larger, r), DeliverRequest(Smaller, r),
                             DeliverConflict(Larger, r, tie), DeliverConflict(Smaller, r, tie)]);
            !t.larger.controlling && !t.smaller.controlling
  {
    var s := System(Peer(true, tie), Peer(true, tie), {}, {});
    var r := Request(true, tie);
    var s1 := Apply(s, Send(Larger));
    var s2 := Apply(s1, Send(Smaller));
    var s3 := Apply(s2, DeliverRequest(Larger, r));
    var s4 := Apply(s3, DeliverRequest(Smaller, r));
    var s5 := Apply(s4, DeliverConflict(Larger, r, tie));
    var s6 := Apply(s5, DeliverConflict(Smaller, r, tie));
    var es := [Send(Larger), Send(Smaller), DeliverRequest(Larger, r), DeliverRequest(Smaller, r),
               DeliverConflict(Larger, r, tie), DeliverConflict(Smaller, r, tie)];
    assert Run(s6, []) == s6;
    assert es[5..][1..] == [];
    assert Run(s5, es[5..]) == s6;
    assert es[4..][1..] == es[5..];
    assert Run(s4, es[4..]) == s6;
    assert es[3..][1..] == es[4..];
    assert Run(s3, es[3..]) == s6;
    assert es[2..][1..] == es[3..];
    assert Run(s2, es[2..]) == s6;
    assert es[1..][1..] == es[2..];
    assert Run(s1, es[1..]) == s6;
  }
}
