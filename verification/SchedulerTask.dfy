/**
 The scheduler loop: each command is merged, then parameters and the next wake-up are recomputed,
 and a timer task is replaced when the prediction changed.
 */
module SchedulerTask {
  import opened Wrappers
  import opened ResourceTypes
  import opened ModelUpdates
  import opened ParameterLayering
  import opened Schedule
  import Sep2Model

  datatype Command = NextSchedule | ResourceUpdated(update: Update) | RefreshActiveResources

  /** A running or finished wait task: its prediction, and how many of its events it has broadcast. */
  datatype WaitTask = WaitTask(next: Prediction, sent: nat)

  /** The loop's variables. Without a prior prediction there is no wait task yet. */
  datatype LoopState = LoopState(
    model: ModelState,
    priorParameters: ControlAttributes,
    priorPostRates: PostRates,
    priorNext: Prediction,
    timer: Option<WaitTask>)

  const NO_PARAMETERS := ControlAttributes(map[], map[], map[])

  function Initial(model: ModelState): LoopState {
    LoopState(model, NO_PARAMETERS, PostRates(None, None), Prediction(None, []), None)
  }

  // Post rates.

  function DerListPollRate(m: ModelState, lfdi: Lfdi): Option<nat> {
    if lfdi !in m.endDevices || m.endDevices[lfdi].derListLink.None? then None else
    var href := m.endDevices[lfdi].derListLink.value;
    if href in m.derLists then m.derLists[href].pollRate else None
  }

  function FirstMupOf(mups: seq<MirrorUsagePoint>, lfdi: Lfdi): Option<MirrorUsagePoint> {
    if mups == [] then None else if mups[0].deviceLfdi == lfdi then Some(mups[0]) else FirstMupOf(mups[1..], lfdi)
  }

  function MupPostRate(m: ModelState, lfdi: Lfdi): Option<nat> {
    match m.mupList
    case None => None
    case Some(list) =>
      match FirstMupOf(list.mirrorUsagePoints, lfdi)
      case None => None
      case Some(mup) => mup.postRate
  }

  function CurrentPostRates(m: ModelState, lfdi: Lfdi): PostRates {
    PostRates(DerListPollRate(m, lfdi), MupPostRate(m, lfdi))
  }

  // One command.

  function CommandEvents(m: ModelState, command: Command, env: Env): seq<Event> {
    match command
    case NextSchedule => []
    case ResourceUpdated(update) => UpdateEvents(m, update, env)
    case RefreshActiveResources => RefreshEvents(m)
  }

  function CommandModel(m: ModelState, command: Command, env: Env): ModelState {
    match command
    case ResourceUpdated(update) => Applied(m, update, env)
    case _ => m
  }

  /** Recomputes post rates and parameters for the model as it now is. */
  function Planned(s: LoopState, lfdi: Lfdi, now: Seconds): LoopState {
    s.(priorParameters := CalcParameters(s.model, lfdi, now), priorPostRates := CurrentPostRates(s.model, lfdi))
  }

  /** A new prediction replaces the wait task, whatever that has already broadcast. */
  function Rearmed(s: LoopState, next: Prediction): LoopState {
    if next == s.priorNext then s else s.(priorNext := next, timer := Some(WaitTask(next, 0)))
  }

  /** What planning announces. */
  function Announcements(s: LoopState, lfdi: Lfdi, now: Seconds): seq<Event> {
    var postRates, parameters := CurrentPostRates(s.model, lfdi), CalcParameters(s.model, lfdi, now);
    (if postRates != s.priorPostRates then [PostRatesChanged(postRates)] else [])
    + (if parameters != s.priorParameters then [ParametersChanged(parameters)] else [])
  }

  /** One pass of the loop, if nothing happens in between. */
  function Process(s: LoopState, lfdi: Lfdi, command: Command, env: Env, now: Seconds): LoopState {
    var merged := s.(model := CommandModel(s.model, command, env));
    Rearmed(Planned(merged, lfdi, now), CalcNext(merged.model, lfdi, now))
  }

  function ProcessEvents(s: LoopState, lfdi: Lfdi, command: Command, env: Env, now: Seconds): seq<Event> {
    CommandEvents(s.model, command, env) + Announcements(s.(model := CommandModel(s.model, command, env)), lfdi, now)
  }

  /** The loop's variables as an object, and one pass of the loop body as a method. */
  class Scheduler {
    const lfdi: Lfdi
    const model: Sep2Model.Model
    var priorParameters: ControlAttributes
    var priorPostRates: PostRates
    var priorNextTime: Option<Seconds>
    var priorNextEvents: seq<Event>
    var timer: Option<WaitTask>

    ghost function State(): LoopState
      reads this, model
    {
      LoopState(model.State(), priorParameters, priorPostRates, Prediction(priorNextTime, priorNextEvents), timer)
    }

    constructor (lfdi: Lfdi, model: Sep2Model.Model)
      ensures this.lfdi == lfdi && this.model == model
      ensures State() == Initial(model.State())
    {
      this.lfdi, this.model := lfdi, model;
      priorParameters, priorPostRates := NO_PARAMETERS, PostRates(None, None);
      priorNextTime, priorNextEvents, timer := None, [], None;
    }

    method ApplyCommand(command: Command, env: Env) returns (events: seq<Event>)
      modifies model
      ensures model.State() == CommandModel(old(model.State()), command, env)
      ensures events == CommandEvents(old(model.State()), command, env)
    {
      events := [];
      match command {
        case NextSchedule =>
        case ResourceUpdated(update) => events := model.ApplyUpdate(update, env);
        case RefreshActiveResources => events := model.RefreshKnownLinks();
      }
    }

    /** Announces what changed and predicts the next change, for the clock as read once. */
    method Plan(now: Seconds) returns (events: seq<Event>, next: Prediction)
      modifies `priorParameters, `priorPostRates
      ensures State() == Planned(old(State()), lfdi, now)
      ensures events == Announcements(old(State()), lfdi, now) && next == CalcNext(model.State(), lfdi, now)
    {
      events := [];
      var curPostRates := CurrentPostRates(model.State(), lfdi);
      if curPostRates != priorPostRates {
        events := [PostRatesChanged(curPostRates)];
        priorPostRates := curPostRates;
      }
      var curParameters := CalcParameters(model.State(), lfdi, now);
      if curParameters != priorParameters {
        events := events + [ParametersChanged(curParameters)];
        priorParameters := curParameters;
      }
      next := CalcNext(model.State(), lfdi, now);
    }

    /** Aborts the wait task and starts another, unless the prediction is the prior one. */
    method Rearm(next: Prediction)
      modifies `timer, `priorNextTime, `priorNextEvents
      ensures State() == Rearmed(old(State()), next)
    {
      if next.time == priorNextTime && next.events == priorNextEvents {
        return;
      }
      timer := Some(WaitTask(next, 0));
      priorNextTime, priorNextEvents := next.time, next.events;
    }

    /** One pass of the loop body. In every world in which it can happen undisturbed it is three steps of a run. */
    method HandleCommand(command: Command, env: Env, now: Seconds) returns (events: seq<Event>)
      modifies this, model
      ensures State() == Process(old(State()), lfdi, command, env, now)
      ensures events == ProcessEvents(old(State()), lfdi, command, env, now)
      ensures forall w: World ::
                w.state == old(State()) && CanPass(w, env, now) ==>
                  Pass(w, lfdi, command, env, now) == World(State(), Idle, now, Some(now), w.log + events)
    {
      events := ApplyCommand(command, env);
      var announced, next := Plan(now);
      Rearm(next);
      events := events + announced;
      forall w: World | w.state == old(State()) && CanPass(w, env, now)
        ensures Pass(w, lfdi, command, env, now) == World(State(), Idle, now, Some(now), w.log + events)
      {
        UndisturbedPass(w, lfdi, command, env, now);
      }
    }

    /** A wait task that has slept until its time broadcasts its next event; this is a step of a run. */
    method BroadcastNext(now: Seconds) returns (event: Event)
      requires CanEmit(State(), now)
      modifies `timer
      ensures old(timer).Some? && old(timer).value.sent < |old(timer).value.next.events|
      ensures event == old(timer).value.next.events[old(timer).value.sent]
      ensures forall w: World ::
                w.state == old(State()) && CanAct(w, Emit(now)) ==>
                  Act(w, lfdi, Emit(now)) == World(State(), w.phase, now, w.handled, w.log + [event])
    {
      event := timer.value.next.events[timer.value.sent];
      timer := Some(timer.value.(sent := timer.value.sent + 1));
    }
  }

  // Runs.

  /** Where the loop is: waiting for a command, done merging it, or done planning for the time it read. */
  datatype Phase = Idle | AfterMerge | AfterPlan(next: Prediction)

  /** The wait task runs beside the loop and may broadcast between any two of its steps. */
  datatype Action =
    | MergeCommand(command: Command, env: Env)
    | PlanAt(now: Seconds)
    | RearmTimer
    | Emit(now: Seconds)

  /** The loop and where it is, the clock, the time of the last planning, and everything broadcast so far. */
  datatype World = World(state: LoopState, phase: Phase, clock: Seconds, handled: Option<Seconds>, log: seq<Event>)

  predicate CanEmit(s: LoopState, now: Seconds) {
    s.timer.Some? && s.timer.value.sent < |s.timer.value.next.events|
    && s.timer.value.next.time.Some? && s.timer.value.next.time.value <= now
  }

  /** The clock never runs backwards. */
  predicate CanAct(w: World, action: Action) {
    match action
    case MergeCommand(_, env) => w.phase.Idle? && w.clock <= env.now
    case PlanAt(now) => w.phase.AfterMerge? && w.clock <= now
    case RearmTimer => w.phase.AfterPlan?
    case Emit(now) => w.clock <= now && CanEmit(w.state, now)
  }

  function Act(w: World, lfdi: Lfdi, action: Action): World
    requires CanAct(w, action)
  {
    match action
    case MergeCommand(command, env) =>
      World(w.state.(model := CommandModel(w.state.model, command, env)), AfterMerge, env.now, w.handled,
            w.log + CommandEvents(w.state.model, command, env))
    case PlanAt(now) =>
      World(Planned(w.state, lfdi, now), AfterPlan(CalcNext(w.state.model, lfdi, now)), now, Some(now),
            w.log + Announcements(w.state, lfdi, now))
    case RearmTimer => w.(state := Rearmed(w.state, w.phase.next), phase := Idle)
    case Emit(now) =>
      var t := w.state.timer.value;
      w.(state := w.state.(timer := Some(t.(sent := t.sent + 1))), clock := now, log := w.log + [t.next.events[t.sent]])
  }

  /** `worlds` are the successive worlds of a run of these actions. */
  ghost predicate IsRun(worlds: seq<World>, lfdi: Lfdi, actions: seq<Action>) {
    && |worlds| == |actions| + 1
    && forall i :: 0 <= i < |actions|
                   ==> CanAct(worlds[i], actions[i]) && worlds[i + 1] == Act(worlds[i], lfdi, actions[i])
  }

  predicate CanPass(w: World, env: Env, now: Seconds) {
    w.phase.Idle? && w.clock <= env.now <= now
  }

  /** The three steps of the loop in a row. */
  function Pass(w: World, lfdi: Lfdi, command: Command, env: Env, now: Seconds): World
    requires CanPass(w, env, now)
  {
    Act(Act(Act(w, lfdi, MergeCommand(command, env)), lfdi, PlanAt(now)), lfdi, RearmTimer)
  }

  lemma PlanAndRearm(w: World, lfdi: Lfdi, now: Seconds)
    requires CanAct(w, PlanAt(now))
    ensures Act(Act(w, lfdi, PlanAt(now)), lfdi, RearmTimer)
         == World(Rearmed(Planned(w.state, lfdi, now), CalcNext(w.state.model, lfdi, now)), Idle, now, Some(now),
                  w.log + Announcements(w.state, lfdi, now))
  {
  }

  lemma Associative(a: seq<Event>, b: seq<Event>, c: seq<Event>)
    ensures a + b + c == a + (b + c)
  {
  }

  lemma UndisturbedPass(w: World, lfdi: Lfdi, command: Command, env: Env, now: Seconds)
    requires CanPass(w, env, now)
    ensures Pass(w, lfdi, command, env, now)
         == World(Process(w.state, lfdi, command, env, now), Idle, now, Some(now),
                  w.log + ProcessEvents(w.state, lfdi, command, env, now))
  {
    var a := Act(w, lfdi, MergeCommand(command, env));
    PlanAndRearm(a, lfdi, now);
    Associative(w.log, CommandEvents(w.state.model, command, env), Announcements(a.state, lfdi, now));
  }
}
