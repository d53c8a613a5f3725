/** Releasing frozen pairs: what the scheduler does against the rule it documents (step 2 of section
    6.1.4.2 of RFC 8445), under which a foundation with a waiting or running check releases nothing. */
module AgentThaw {
  import opened Wire
  import opened Candidates
  import opened AgentState

  /** A listed pair of this foundation waits or is being checked. */
  ghost predicate Engaged(pairs: Pairs, ids: seq<nat>, foundation: Text)
  {
    exists id :: && id in ids && id in pairs && Foundation(pairs[id]) == foundation
                 && (pairs[id].state.Waiting? || pairs[id].state.InProgress?)
  }

  /** The rule, applied to the first `n` listed pairs in turn. */
  ghost function RuleThaw(pairs: Pairs, ids: seq<nat>, n: nat): Pairs
    requires n <= |ids|
  {
    if n == 0 then pairs
    else
      var now, id := RuleThaw(pairs, ids, n - 1), ids[n - 1];
      if id in now && now[id].state.Frozen? && !Engaged(now, ids, Foundation(now[id]))
      then now[id := now[id].(state := Waiting)] else now
  }

  /** Two listed frozen pairs share a foundation that has no check under way. */
  ghost predicate Crowded(pairs: Pairs, ids: seq<nat>)
  {
    exists a, b :: && a in ids && b in ids && a != b && Thaws(pairs, ids, a) && Thaws(pairs, ids, b)
                   && Foundation(pairs[a]) == Foundation(pairs[b])
  }

  ghost predicate LetGo(was: Pairs, now: Pairs, id: nat)
  {
    id in was && id in now && was[id].state.Frozen? && now[id].state.Waiting?
  }

  /** At most one pair per foundation is let go. */
  ghost predicate OneEach(was: Pairs, ids: seq<nat>, now: Pairs)
  {
    forall a, b :: a in ids && b in ids && a != b && LetGo(was, now, a) && LetGo(was, now, b) ==>
      Foundation(was[a]) != Foundation(was[b])
  }

  /** A thaw lets go at most one pair per foundation if and only if no two listed frozen pairs share a
      foundation with no check under way. */
  lemma ThawsOneEach(was: Pairs, ids: seq<nat>, now: Pairs)
    requires InStore(was, ids) && Thawed(was, ids, ids, now)
    ensures OneEach(was, ids, now) <==> !Crowded(was, ids)
  {
    hide Foundation, Busy;
    forall id | id in ids ensures LetGo(was, now, id) <==> Thaws(was, ids, id) {
    }
  }

  lemma RuleKeeps(was: Pairs, ids: seq<nat>, n: nat, id: nat)
    requires n <= |ids| && id in was
    ensures RuleThaw(was, ids, n).Keys == was.Keys
    ensures Foundation(RuleThaw(was, ids, n)[id]) == Foundation(was[id])
  {
    RuleStatesOnly(was, ids, n);
    SameFoundation(RuleThaw(was, ids, n)[id], was[id]);
  }

  lemma {:induction false} RuleStatesOnly(was: Pairs, ids: seq<nat>, n: nat)
    requires n <= |ids|
    ensures StatesOnly(was, RuleThaw(was, ids, n))
  {
    hide Foundation, Engaged;
    if n > 0 { RuleStatesOnly(was, ids, n - 1); }
  }

  /** Under the rule no two waiting pairs share a foundation. */
  ghost predicate OneWaiting(pairs: Pairs, ids: seq<nat>)
  {
    forall a, b ::
      a in ids && b in ids && a in pairs && b in pairs && a != b && pairs[a].state.Waiting? && pairs[b].state.Waiting? ==>
        Foundation(pairs[a]) != Foundation(pairs[b])
  }

  lemma OneMoreWaiting(pairs: Pairs, ids: seq<nat>, id: nat)
    requires OneWaiting(pairs, ids) && id in pairs && !Engaged(pairs, ids, Foundation(pairs[id]))
    ensures OneWaiting(pairs[id := pairs[id].(state := Waiting)], ids)
  {
    var now := pairs[id := pairs[id].(state := Waiting)];
    forall x | x in pairs ensures Foundation(now[x]) == Foundation(pairs[x]) {
      SameFoundation(now[x], pairs[x]);
    }
    hide Foundation;
  }

  lemma {:induction false} RuleOneWaiting(was: Pairs, ids: seq<nat>, n: nat)
    requires n <= |ids| && InStore(was, ids) && !SomeWaiting(was, ids)
    ensures OneWaiting(RuleThaw(was, ids, n), ids)
  {
    hide Foundation, Engaged, OneWaiting;
    if n == 0 {
      NoneWaiting(was, ids);
    } else {
      RuleOneWaiting(was, ids, n - 1);
      var now, id := RuleThaw(was, ids, n - 1), ids[n - 1];
      if id in now && now[id].state.Frozen? && !Engaged(now, ids, Foundation(now[id])) { OneMoreWaiting(now, ids, id); }
    }
  }

  lemma NoneWaiting(was: Pairs, ids: seq<nat>)
    requires !SomeWaiting(was, ids)
    ensures OneWaiting(was, ids)
  {
    hide Foundation;
  }

  /** After the pairs in `done` have thawed, a foundation is engaged if it was busy or one of them had it. */
  lemma EngagedAfter(was: Pairs, ids: seq<nat>, done: seq<nat>, now: Pairs, id: nat)
    requires InStore(was, ids) && !SomeWaiting(was, ids) && Thawed(was, ids, done, now) && id in was
    requires forall x :: x in done ==> x in ids
    ensures Foundation(now[id]) == Foundation(was[id])
    ensures Engaged(now, ids, Foundation(was[id])) <==>
              Busy(was, ids, Foundation(was[id]))
              || exists x :: x in done && Thaws(was, ids, x) && Foundation(was[x]) == Foundation(was[id])
  {
    hide Busy;
    forall x | x in was ensures Foundation(now[x]) == Foundation(was[x]) {
      SameFoundation(now[x], was[x]);
    }
    hide Foundation;
    EngagedParts(was, ids, done, now, Foundation(was[id]));
  }

  lemma EngagedParts(was: Pairs, ids: seq<nat>, done: seq<nat>, now: Pairs, f: Text)
    requires InStore(was, ids) && !SomeWaiting(was, ids) && Thawed(was, ids, done, now)
    requires forall x :: x in done ==> x in ids
    requires forall x :: x in was ==> Foundation(now[x]) == Foundation(was[x])
    ensures Engaged(now, ids, f) <==>
              Busy(was, ids, f) || exists x :: x in done && Thaws(was, ids, x) && Foundation(was[x]) == f
  {
    hide Foundation;
    if Engaged(now, ids, f) {
      var x :| && x in ids && x in now && Foundation(now[x]) == f
               && (now[x].state.Waiting? || now[x].state.InProgress?);
      if now[x].state.InProgress? { assert was[x].state.InProgress?; }
    }
    if Busy(was, ids, f) {
      var x :| x in ids && x in was && was[x].state.InProgress? && Foundation(was[x]) == f;
      assert now[x].state.InProgress?;
    }
    if x :| x in done && Thaws(was, ids, x) && Foundation(was[x]) == f { assert now[x].state.Waiting?; }
  }

  lemma {:induction false} RuleIsThaw(was: Pairs, ids: seq<nat>, n: nat)
    requires n <= |ids| && InStore(was, ids) && !SomeWaiting(was, ids) && !Crowded(was, ids)
    ensures Thawed(was, ids, ids[..n], RuleThaw(was, ids, n))
  {
    hide Foundation, Engaged, Busy;
    if n > 0 {
      RuleIsThaw(was, ids, n - 1);
      var now, id, done := RuleThaw(was, ids, n - 1), ids[n - 1], ids[..n - 1];
      assert ids[..n] == done + [id];
      EngagedAfter(was, ids, done, now, id);
    }
  }

  /** Where no pair waits, the scheduler's loop does what its rule says if and only if no two listed
      frozen pairs share a foundation with no check under way. */
  lemma ThawFollowsRule(was: Pairs, ids: seq<nat>, now: Pairs)
    requires InStore(was, ids) && !SomeWaiting(was, ids) && Thawed(was, ids, ids, now)
    ensures now == RuleThaw(was, ids, |ids|) <==> !Crowded(was, ids)
  {
    hide Foundation, Busy, RuleThaw;
    assert ids[..|ids|] == ids;
    if Crowded(was, ids) {
      RuleOneWaiting(was, ids, |ids|);
      var a, b :| && a in ids && b in ids && a != b && Thaws(was, ids, a) && Thaws(was, ids, b)
                  && Foundation(was[a]) == Foundation(was[b]);
      RuleKeeps(was, ids, |ids|, a);
      RuleKeeps(was, ids, |ids|, b);
    } else {
      RuleIsThaw(was, ids, |ids|);
    }
  }

  /** Any two frozen pairs of one foundation, alone on the checklist, are both let go. */
  lemma BothLetGo(p: Pair, q: Pair, now: Pairs)
    requires p.state.Frozen? && q.state.Frozen? && Foundation(p) == Foundation(q)
    requires Thawed(map[0 := p, 1 := q], [0, 1], [0, 1], now)
    ensures now == map[0 := p.(state := Waiting), 1 := q.(state := Waiting)]
    ensures RuleThaw(map[0 := p, 1 := q], [0, 1], 2) == map[0 := p.(state := Waiting), 1 := q]
  {
    hide Foundation;
    var was := map[0 := p, 1 := q];
    assert !Engaged(was, [0, 1], Foundation(p));
    var first := RuleThaw(was, [0, 1], 1);
    assert RuleThaw(was, [0, 1], 0) == was;
    SameFoundation(p.(state := Waiting), p);
    assert 0 in [0, 1] && Engaged(first, [0, 1], Foundation(q));
  }
}
