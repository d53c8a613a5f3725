/** Starting an asynchronous operation while its stop callback may run on another thread: both
    sides race on one atomic word. Every atomic access is a step of its own. */
module Handshake {

  datatype Word = Construction | Emplaced | Initiated | Stopped

  /** Where `start` stands. */
  datatype StartAt =
    | Check | Emplace | FirstExchange | FirstReset | Initiate | ErrorReset | SecondExchange | SecondReset | Emit | Started

  /** Where the stop callback stands; `expected` is what it last read, `previous` what it replaced. */
  datatype StopAt = Idle | Looping(expected: Word) | Decided(previous: Word) | Returned(previous: Word)

  datatype Completion = StoppedCompletion | ErrorCompletion | IoCompletion

  /** `first` and `second` remember how the exchanges of `start` went. */
  datatype System = System(word: Word, start: StartAt, stop: StopAt, requested: bool, registered: bool,
                           io: bool, emits: nat, completions: seq<Completion>,
                           first: Exchange, second: Exchange)
  datatype Exchange = Pending | Won | Lost

  datatype Event =
    | RequestStop
    | StartStep(throws: bool)
    | StopStep(spurious: bool)
    | Complete

  function Init(): System
  {
    System(Construction, Check, Idle, false, false, false, 0, [], Pending, Pending)
  }

  /** `reset` on the callback waits while the callback runs. */
  predicate Running(s: System) { s.stop.Looping? || s.stop.Decided? }

  function StartNext(s: System, throws: bool): System
  {
    match s.start
    case Check =>
      if s.requested then s.(start := Started, completions := s.completions + [StoppedCompletion]) else s.(start := Emplace)
    case Emplace => s.(start := FirstExchange, registered := true)
    case FirstExchange =>
      if s.word.Construction? then s.(word := Emplaced, start := Initiate, first := Won)
      else s.(start := FirstReset, first := Lost)
    case FirstReset =>
      if Running(s) then s
      else s.(registered := false, start := Started, completions := s.completions + [StoppedCompletion])
    case Initiate => if throws then s.(start := ErrorReset) else s.(start := SecondExchange, io := true)
    case ErrorReset =>
      if Running(s) then s
      else s.(registered := false, start := Started, completions := s.completions + [ErrorCompletion])
    case SecondExchange =>
      if s.word.Emplaced? then s.(word := Initiated, start := Started, second := Won)
      else s.(start := SecondReset, second := Lost)
    case SecondReset => if Running(s) then s else s.(registered := false, start := Emit)
    case Emit => s.(start := Started, emits := s.emits + 1)
    case Started => s
  }

  function StopNext(s: System, spurious: bool): System
  {
    match s.stop
    case Idle => if s.requested && s.registered then s.(stop := Looping(s.word)) else s
    case Looping(expected) =>
      if s.word == expected && !spurious then s.(word := Stopped, stop := Decided(expected))
      else s.(stop := Looping(s.word))
    case Decided(previous) => s.(stop := Returned(previous), emits := s.emits + if previous.Initiated? then 1 else 0)
    case Returned(_) => s
  }

  /** The I/O completes after `start` has returned, once. */
  function Completed(s: System): System
  {
    if s.io && s.start.Started? && !Running(s) && s.completions == [] then
      s.(registered := false, completions := [IoCompletion])
    else s
  }

  function Step(s: System, e: Event): System
  {
    match e
    case RequestStop => s.(requested := true)
    case StartStep(throws) => StartNext(s, throws)
    case StopStep(spurious) => StopNext(s, spurious)
    case Complete => Completed(s)
  }

  function Run(s: System, events: seq<Event>): System
    decreases |events|
  {
    if events == [] then s else Run(Step(s, events[0]), events[1..])
  }

  // ---- what every step keeps ----

  /** The word is stopped exactly when the callback has replaced it. */
  predicate WordOk(s: System)
  {
    && (s.word.Stopped? <==> s.stop.Decided? || s.stop.Returned?)
    && (s.stop.Looping? ==> !s.stop.expected.Stopped?)
    && (s.start.Check? || s.start.Emplace? ==> s.stop.Idle? && !s.registered)
    && (s.first.Pending? ==> s.word.Construction? || s.word.Stopped?)
    && (s.first.Won? && s.second.Pending? ==> s.word.Emplaced? || s.word.Stopped?)
    && (s.second.Won? ==> s.word.Initiated? || s.word.Stopped?)
    && (s.second.Lost? ==> s.word.Stopped?)
    && (s.first.Lost? ==> s.word.Stopped?)
  }

  /** What the callback replaced tells how far `start` had come. */
  predicate PreviousOk(s: System)
  {
    s.stop.Decided? || s.stop.Returned? ==>
      && (s.stop.previous.Construction? ==> s.first != Won)
      && (s.stop.previous.Emplaced? ==> s.first.Won? && s.second != Won)
      && (s.stop.previous.Initiated? ==> s.second.Won?)
      && !s.stop.previous.Stopped?
  }

  /** How far each place of `start` is. */
  predicate PlaceOk(s: System)
  {
    match s.start
    case Check => s.first.Pending? && s.second.Pending? && !s.io && s.completions == []
    case Emplace => s.first.Pending? && s.second.Pending? && !s.io && s.completions == []
    case FirstExchange => s.first.Pending? && s.second.Pending? && !s.io && s.completions == []
    case FirstReset => s.first.Lost? && s.second.Pending? && !s.io && s.completions == []
    case Initiate => s.first.Won? && s.second.Pending? && !s.io && s.completions == []
    case ErrorReset => s.first.Won? && s.second.Pending? && !s.io && s.completions == []
    case SecondExchange => s.first.Won? && s.second.Pending? && s.io && s.completions == []
    case SecondReset => s.first.Won? && s.second.Lost? && s.io && s.completions == []
    case Emit => s.first.Won? && s.second.Lost? && s.io && s.completions == [] && !Running(s) && !s.registered
    case Started =>
      if s.io then s.first.Won? && s.second != Pending && (s.completions == [] || s.completions == [IoCompletion])
      else if s.first.Won? then s.second.Pending? && s.completions == [ErrorCompletion]
      else s.second.Pending? && s.completions == [StoppedCompletion]
  }

  /** Who has emitted: `start` after losing the second exchange, or the callback that replaced `Initiated`. */
  predicate EmitsOk(s: System)
  {
    s.emits == (if s.second.Lost? && s.start.Started? then 1 else 0)
             + (if s.stop.Returned? && s.stop.previous.Initiated? then 1 else 0)
  }

  predicate Invariant(s: System) { WordOk(s) && PreviousOk(s) && PlaceOk(s) && EmitsOk(s) }

  /** What a step may do besides. */
  predicate Forward(s: System, t: System)
  {
    (s.first != Pending ==> t.first == s.first) && (s.io ==> t.io) && s.emits <= t.emits
  }

  lemma StartKeepsWord(s: System, throws: bool)
    requires Invariant(s)
    ensures WordOk(StartNext(s, throws)) && PreviousOk(StartNext(s, throws))
  {
    hide EmitsOk;
  }

  lemma StartKeepsPlace(s: System, throws: bool)
    requires Invariant(s)
    ensures PlaceOk(StartNext(s, throws)) && Forward(s, StartNext(s, throws))
  {
    hide EmitsOk, PreviousOk, WordOk;
  }

  lemma StartKeepsEmits(s: System, throws: bool)
    requires Invariant(s)
    ensures EmitsOk(StartNext(s, throws))
  {
    hide WordOk, PreviousOk;
  }

  lemma StartKeeps(s: System, throws: bool)
    requires Invariant(s)
    ensures Invariant(StartNext(s, throws)) && Forward(s, StartNext(s, throws))
  {
    hide StartNext, WordOk, PlaceOk, PreviousOk, EmitsOk;
    StartKeepsWord(s, throws);
    StartKeepsPlace(s, throws);
    StartKeepsEmits(s, throws);
  }

  lemma StopKeepsWord(s: System, spurious: bool)
    requires Invariant(s)
    ensures WordOk(StopNext(s, spurious)) && PreviousOk(StopNext(s, spurious))
  {
    hide EmitsOk;
  }

  lemma StopKeepsPlace(s: System, spurious: bool)
    requires Invariant(s)
    ensures PlaceOk(StopNext(s, spurious)) && Forward(s, StopNext(s, spurious))
  {
    hide EmitsOk, PreviousOk;
  }

  lemma StopKeepsEmits(s: System, spurious: bool)
    requires Invariant(s)
    ensures EmitsOk(StopNext(s, spurious))
  {
    hide WordOk, PlaceOk;
  }

  lemma StopKeeps(s: System, spurious: bool)
    requires Invariant(s)
    ensures Invariant(StopNext(s, spurious)) && Forward(s, StopNext(s, spurious))
  {
    hide StopNext, WordOk, PlaceOk, PreviousOk, EmitsOk;
    StopKeepsWord(s, spurious);
    StopKeepsPlace(s, spurious);
    StopKeepsEmits(s, spurious);
  }

  lemma CompleteKeeps(s: System)
    requires Invariant(s)
    ensures Invariant(Completed(s)) && Forward(s, Completed(s))
  {
  }

  lemma StepKeeps(s: System, e: Event)
    requires Invariant(s)
    ensures Invariant(Step(s, e)) && Forward(s, Step(s, e))
  {
    hide StartNext, StopNext, Completed;
    match e
    case RequestStop =>
    case StartStep(throws) => StartKeeps(s, throws);
    case StopStep(spurious) => StopKeeps(s, spurious);
    case Complete => CompleteKeeps(s);
  }

  lemma {:induction false} RunKeeps(s: System, events: seq<Event>)
    requires Invariant(s)
    ensures Invariant(Run(s, events)) && Forward(s, Run(s, events))
    decreases |events|
  {
    hide Invariant, Step;
    if events != [] {
      StepKeeps(s, events[0]);
      RunKeeps(Step(s, events[0]), events[1..]);
    }
  }

  // ---- what holds in every interleaving ----

  /** The signal is emitted at most once, and only after the I/O is initiated. */
  lemma OneEmission(events: seq<Event>)
    ensures var s := Run(Init(), events);
            s.emits <= 1 && (s.emits == 1 ==> s.io) && |s.completions| <= 1
  {
    RunKeeps(Init(), events);
  }

  /** A stop that wins the first exchange means no I/O, no signal, and in the end exactly one
      completion, the stopped one. */
  lemma StopWinsFirst(events: seq<Event>, more: seq<Event>)
    requires Run(Init(), events).first.Lost?
    ensures var s := Run(Run(Init(), events), more);
            !s.io && s.emits == 0 && (s.start.Started? <==> s.completions == [StoppedCompletion])
            && (!s.start.Started? ==> s.completions == [])
  {
    RunKeeps(Init(), events);
    RunKeeps(Run(Init(), events), more);
  }

  /** Once the callback has returned and `start` too, initiated I/O has been signalled: by the
      callback if it came after the second exchange, by `start` if it came before. */
  lemma StopIsSignalled(events: seq<Event>)
    ensures var s := Run(Init(), events);
            s.stop.Returned? && s.start.Started? && s.io ==> s.emits == 1
  {
    RunKeeps(Init(), events);
  }

  /** Without a stop callback nothing is signalled. */
  lemma NoStopNoSignal(events: seq<Event>)
    ensures var s := Run(Init(), events);
            s.stop.Idle? ==> s.emits == 0
  {
    RunKeeps(Init(), events);
  }

  /** An operation whose I/O was not initiated completes from within `start`, exactly once. */
  lemma NoIoCompletesAtOnce(events: seq<Event>)
    ensures var s := Run(Init(), events);
            s.start.Started? && !s.io ==> s.completions == [StoppedCompletion] || s.completions == [ErrorCompletion]
  {
    RunKeeps(Init(), events);
  }

  function CallbackRests(s: System): System { StopNext(StopNext(StopNext(s, false), false), false) }

  /** How many steps the callback is from rest. */
  function Distance(s: System): nat
  {
    match s.stop
    case Idle => if s.requested && s.registered then 3 else 0
    case Looping(expected) => if expected == s.word then 2 else 3
    case Decided(_) => 1
    case Returned(_) => 0
  }

  lemma StepCloser(s: System)
    ensures Distance(StopNext(s, false)) == if Distance(s) == 0 then 0 else Distance(s) - 1
    ensures StopNext(s, false).start == s.start
  {
  }

  lemma RestIsRest(s: System)
    requires Distance(s) == 0
    ensures !Running(s)
  {
  }

  lemma ThreeStepsRest(s: System)
    ensures !Running(CallbackRests(s)) && CallbackRests(s).start == s.start
  {
    hide StopNext, Running;
    StepCloser(s);
    StepCloser(StopNext(s, false));
    StepCloser(StopNext(StopNext(s, false), false));
    RestIsRest(CallbackRests(s));
  }

  lemma MovesOn(s: System)
    requires !s.start.Started? && !Running(s)
    ensures StartNext(s, false).start != s.start
  {
  }

  /** Nothing is stuck: three steps of the callback bring it to rest, and then a `start` that has not
      returned moves on. */
  lemma StartAdvances(events: seq<Event>)
    requires !Run(Init(), events).start.Started?
    ensures var s := Run(Init(), events); StartNext(CallbackRests(s), false).start != s.start
  {
    hide CallbackRests, StartNext, Run;
    ThreeStepsRest(Run(Init(), events));
    MovesOn(CallbackRests(Run(Init(), events)));
  }
}
