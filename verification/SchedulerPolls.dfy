/**
 The scheduler and the server connection together: what a run of the scheduler broadcasts keeps the polls those
 of its model, whatever the wait tasks broadcast in between.
 */
module SchedulerPolls {
  import opened Wrappers
  import opened ResourceTypes
  import opened ResourceGraph
  import opened SweepCorrectness
  import opened LinkEvents
  import opened ModelUpdates
  import opened ModelRuns
  import opened PollTable
  import opened SchedulerTask
  import opened SchedulerSafety

  /** What a step of the scheduler means for the polls, if anything. */
  function HappeningOf(action: Action): Option<Happening> {
    match action
    case MergeCommand(ResourceUpdated(update), env) => Some(Updated(Step(update, env)))
    case MergeCommand(RefreshActiveResources, _) => Some(Refreshed)
    case _ => None
  }

  function OneMore(happenings: seq<Happening>, more: Option<Happening>): seq<Happening> {
    match more
    case None => happenings
    case Some(h) => happenings + [h]
  }

  function HappeningsOf(actions: seq<Action>): seq<Happening> {
    if actions == [] then [] else
    var n := |actions| - 1;
    OneMore(HappeningsOf(actions[..n]), HappeningOf(actions[n]))
  }

  /** Replaying or dispatching these events comes to the same. */
  ghost predicate SameEffect(a: seq<Event>, b: seq<Event>) {
    && (forall table :: Replay(a, table) == Replay(b, table))
    && (forall polls, rate :: AllDispatched(polls, a, rate) == AllDispatched(polls, b, rate))
  }

  lemma SameEffectConcat(a: seq<Event>, b: seq<Event>, x: seq<Event>, y: seq<Event>)
    requires SameEffect(a, b) && SameEffect(x, y)
    ensures SameEffect(a + x, b + y)
  {
    forall table ensures Replay(a + x, table) == Replay(b + y, table) {
      ReplayConcat(a, x, table);
      ReplayConcat(b, y, table);
    }
    forall polls, rate ensures AllDispatched(polls, a + x, rate) == AllDispatched(polls, b + y, rate) {
      DispatchedConcat(polls, a, x, rate);
      DispatchedConcat(polls, b, y, rate);
    }
  }

  lemma NoEffect(events: seq<Event>)
    requires NoLinkEvents(events)
    ensures SameEffect(events, [])
  {
    forall table ensures Replay(events, table) == Replay([], table) {
      ReplayIgnoresOtherEvents(events, table);
    }
    forall polls, rate ensures AllDispatched(polls, events, rate) == AllDispatched(polls, [], rate) {
      OtherEventsDispatched(polls, events, rate);
    }
  }

  /** What a step adds to the log. */
  function StepEvents(w: World, lfdi: Lfdi, action: Action): seq<Event>
    requires CanAct(w, action)
  {
    match action
    case MergeCommand(command, env) => CommandEvents(w.state.model, command, env)
    case PlanAt(now) => Announcements(w.state, lfdi, now)
    case RearmTimer => []
    case Emit(_) => [w.state.timer.value.next.events[w.state.timer.value.sent]]
  }

  function ModelOf(m: ModelState, happening: Happening): ModelState {
    match happening
    case Updated(step) => Applied(m, step.update, step.env)
    case _ => m
  }

  lemma StepHappens(w: World, lfdi: Lfdi, action: Action)
    requires CanAct(w, action)
    ensures var m, after := w.state.model, Act(w, lfdi, action);
            && after.log == w.log + StepEvents(w, lfdi, action)
            && match HappeningOf(action)
               case None => after.state.model == m
               case Some(h) =>
                 && after.state.model == ModelOf(m, h)
                 && StepEvents(w, lfdi, action) == EventsOf(m, h)
  {
  }

  lemma OtherStepsHaveNoEffect(w: World, lfdi: Lfdi, action: Action)
    requires CanAct(w, action) && TimerIsLatest(w, lfdi) && HappeningOf(action).None?
    ensures SameEffect(StepEvents(w, lfdi, action), [])
  {
    NoEffect(StepEvents(w, lfdi, action));
  }

  /** Where a model gets by some happenings, and what has been announced by then. */
  ghost predicate HasHappened(m: ModelState, log: seq<Event>, happenings: seq<Happening>, w: World) {
    w.state.model == ModelAfter(m, happenings) && SameEffect(w.log, log + AllEvents(m, happenings))
  }

  lemma OneMoreHappens(m: ModelState, happenings: seq<Happening>, h: Happening)
    ensures var before := ModelAfter(m, happenings);
            && ModelAfter(m, happenings + [h]) == ModelOf(before, h)
            && AllEvents(m, happenings + [h]) == AllEvents(m, happenings) + EventsOf(before, h)
  {
    var all := happenings + [h];
    assert all[..|all| - 1] == happenings && all[|all| - 1] == h;
  }

  lemma NextHappens(m: ModelState, log: seq<Event>, happenings: seq<Happening>, w: World, h: Happening, after: World)
    requires HasHappened(m, log, happenings, w)
    requires after.state.model == ModelOf(w.state.model, h)
    requires after.log == w.log + EventsOf(w.state.model, h)
    ensures HasHappened(m, log, happenings + [h], after)
  {
    var earlier, more := AllEvents(m, happenings), EventsOf(w.state.model, h);
    OneMoreHappens(m, happenings, h);
    SameEffectConcat(w.log, log + earlier, more, more);
    assert log + earlier + more == log + (earlier + more);
  }

  lemma NothingHappens(m: ModelState, log: seq<Event>, happenings: seq<Happening>, w: World, more: seq<Event>,
                       after: World)
    requires HasHappened(m, log, happenings, w) && SameEffect(more, [])
    requires after.state.model == w.state.model && after.log == w.log + more
    ensures HasHappened(m, log, happenings, after)
  {
    SameEffectConcat(w.log, log + AllEvents(m, happenings), more, []);
    assert log + AllEvents(m, happenings) + [] == log + AllEvents(m, happenings);
  }

  lemma StepHasHappened(m: ModelState, log: seq<Event>, happenings: seq<Happening>, w: World, lfdi: Lfdi,
                        action: Action)
    requires CanAct(w, action) && TimerIsLatest(w, lfdi) && HasHappened(m, log, happenings, w)
    ensures HasHappened(m, log, OneMore(happenings, HappeningOf(action)), Act(w, lfdi, action))
  {
    StepHappens(w, lfdi, action);
    match HappeningOf(action)
    case None =>
      OtherStepsHaveNoEffect(w, lfdi, action);
      NothingHappens(m, log, happenings, w, StepEvents(w, lfdi, action), Act(w, lfdi, action));
    case Some(h) => NextHappens(m, log, happenings, w, h, Act(w, lfdi, action));
  }

  /** The log of a run has the effect of the happenings it stands for. */
  lemma {:induction false} RunHappens(worlds: seq<World>, lfdi: Lfdi, actions: seq<Action>, i: nat)
    requires IsRun(worlds, lfdi, actions) && i < |worlds| && TimerIsLatest(worlds[0], lfdi)
    ensures TimerIsLatest(worlds[i], lfdi)
    ensures HasHappened(worlds[0].state.model, worlds[0].log, HappeningsOf(actions[..i]), worlds[i])
  {
    var m, log := worlds[0].state.model, worlds[0].log;
    if i == 0 {
      assert log + [] == log;
    } else {
      RunHappens(worlds, lfdi, actions, i - 1);
      TimerStaysLatest(worlds[i - 1], lfdi, actions[i - 1]);
      assert actions[..i][..i - 1] == actions[..i - 1];
      StepHasHappened(m, log, HappeningsOf(actions[..i - 1]), worlds[i - 1], lfdi, actions[i - 1]);
    }
  }

  /**
   In every run of the scheduler, dispatching everything it broadcasts keeps the polls those that the announced
   links call for. These are the links of the model at that moment but for the one rate, and that one too if it
   was right at first and is kept.
   */
  lemma PollsFollowTheScheduler(worlds: seq<World>, lfdi: Lfdi, actions: seq<Action>, table: ResourceLinks,
                                polls: Polls, defaultRate: nat)
    requires IsRun(worlds, lfdi, actions) && TimerIsLatest(worlds[0], lfdi)
    requires var m, happenings := worlds[0].state.model, HappeningsOf(actions);
             AllHrefs(m) && HappeningsHaveHrefs(happenings) && KindsStay(m, happenings)
    requires var announced := Replay(worlds[0].log, table);
             && SameButMupRate(announced, Links(worlds[0].state.model))
             && AllDispatched(polls, worlds[0].log, defaultRate) == Expected(announced, defaultRate)
    ensures var start, w := worlds[0], worlds[|actions|];
            var announced := Replay(w.log, table);
            var kept := RateKept(start.state.model, HappeningsOf(actions));
            && SameButMupRate(announced, Links(w.state.model))
            && (kept && Replay(start.log, table) == Links(start.state.model) ==> announced == Links(w.state.model))
            && AllDispatched(polls, w.log, defaultRate) == Expected(announced, defaultRate)
  {
    var m, happenings, log := worlds[0].state.model, HappeningsOf(actions), worlds[0].log;
    RunHappens(worlds, lfdi, actions, |actions|);
    assert actions[..|actions|] == actions;
    PollsFollowTheModel(m, happenings, Replay(log, table), AllDispatched(polls, log, defaultRate), defaultRate);
    ReplayConcat(log, AllEvents(m, happenings), table);
    DispatchedConcat(polls, log, AllEvents(m, happenings), defaultRate);
  }

  lemma FirstRefresh(w: World, lfdi: Lfdi, model: ModelState, env: Env, defaultRate: nat)
    requires StartsFresh(w, model) && CanAct(w, MergeCommand(RefreshActiveResources, env))
    ensures var after := Act(w, lfdi, MergeCommand(RefreshActiveResources, env));
            && after.state.model == model && TimerIsLatest(after, lfdi)
            && Replay(after.log, map[]) == Links(model)
            && AllDispatched(map[], after.log, defaultRate) == Expected(Links(model), defaultRate)
  {
    TimerStaysLatest(w, lfdi, MergeCommand(RefreshActiveResources, env));
    RefreshSetsUpPolls(model, defaultRate);
    RefreshRepairs(map[], Links(model));
    assert [] + RefreshEvents(model) == RefreshEvents(model);
  }

  /** In particular after a restart, from the first refresh of the active resources. */
  lemma PollsFollowAfterRestart(worlds: seq<World>, lfdi: Lfdi, actions: seq<Action>, model: ModelState, env: Env,
                                defaultRate: nat)
    requires IsRun(worlds, lfdi, [MergeCommand(RefreshActiveResources, env)] + actions)
    requires StartsFresh(worlds[0], model) && AllHrefs(model)
    requires HappeningsHaveHrefs(HappeningsOf(actions)) && KindsStay(model, HappeningsOf(actions))
    ensures var w := worlds[|actions| + 1];
            var polls, wanted := AllDispatched(map[], w.log, defaultRate), Expected(Links(w.state.model), defaultRate);
            && polls.Keys == wanted.Keys
            && (RateKept(model, HappeningsOf(actions)) ==> polls == wanted)
  {
    var refresh := MergeCommand(RefreshActiveResources, env);
    LaterRun(worlds, lfdi, refresh, actions);
    FirstRefresh(worlds[0], lfdi, model, env, defaultRate);
    PollsFollowTheScheduler(worlds[1..], lfdi, actions, map[], map[], defaultRate);
  }

  lemma LaterRun(worlds: seq<World>, lfdi: Lfdi, first: Action, actions: seq<Action>)
    requires IsRun(worlds, lfdi, [first] + actions)
    ensures CanAct(worlds[0], first) && worlds[1] == Act(worlds[0], lfdi, first)
    ensures IsRun(worlds[1..], lfdi, actions)
  {
    var all := [first] + actions;
    assert all[0] == first;
    forall i | 0 <= i < |actions|
      ensures CanAct(worlds[1..][i], actions[i]) && worlds[1..][i + 1] == Act(worlds[1..][i], lfdi, actions[i])
    {
      assert all[i + 1] == actions[i];
    }
  }
}
